/** Packing and reading the low fields of an Elias-Fano sequence (pack_low_fixed, decode). */
module LowFields {
  import opened ColaSpec
  import opened BitStrings

  /** All low fields end to end. */
  function Fields(source: seq<nat>, W: nat): (flat: seq<bool>)
    ensures |flat| == Times(|source|, W)
  {
    if source == [] then []
    else Fields(source[..|source| - 1], W) + Bits(source[|source| - 1], W)
  }

  lemma {:induction false} FieldAt(source: seq<nat>, W: nat, i: nat)
    requires i < |source|
    ensures Times(i, W) + W <= Times(|source|, W)
    ensures Fields(source, W)[Times(i, W)..Times(i, W) + W] == Bits(source[i], W)
  {
    var n := |source| - 1;
    if i < n {
      TimesLess(i, n, W);
      FieldAt(source[..n], W, i);
      var flat, front := Fields(source, W), Fields(source[..n], W);
      assert flat[Times(i, W)..Times(i, W) + W] == front[Times(i, W)..Times(i, W) + W];
    }
  }

  lemma {:induction false} TimesAdd(a: nat, b: nat, K: nat)
    ensures Times(a + b, K) == Times(a, K) + Times(b, K)
  {
    if b > 0 { TimesAdd(a, b - 1, K); }
  }

  lemma {:induction false} TimesTwice(a: nat, K: nat)
    ensures Times(a, 2 * K) == 2 * Times(a, K)
    ensures Times(2 * a, K) == 2 * Times(a, K)
  {
    if a > 0 { TimesTwice(a - 1, K); }
  }

  lemma DivTimes(p: nat, K: nat)
    requires K > 0
    ensures Times(p / K, K) <= p < Times(p / K, K) + K
  {
    TimesIs(p / K, K);
    assert p == p / K * K + p % K;
  }

  /** Every section bit below the end is a field bit; every bit past it is zero. */
  predicate LowExact(low: seq<Word>, flat: seq<bool>) {
    |low| == WordsFor(|flat|) && forall p | 0 <= p < 64 * |low| :: BitAt(low, p) == (p < |flat| && flat[p])
  }

  /** Inputs and outputs of one tile: the fields return to a word boundary after them. */
  function Tile(W: nat, m: nat): (t: (nat, nat))
    requires W > 0 && m > 0
    ensures t.0 > 0 && t.1 > 0
    decreases m
  {
    if W % 2 == 1 || m % 2 == 1 then (m, W) else Tile(W / 2, m / 2)
  }

  lemma {:induction false} TileAligned(W: nat, m: nat)
    requires W > 0 && m > 0
    ensures Times(Tile(W, m).0, W) == Times(Tile(W, m).1, m)
    decreases m
  {
    if W % 2 == 1 || m % 2 == 1 {
      TimesIs(m, W);
      TimesIs(W, m);
    } else {
      TileAligned(W / 2, m / 2);
      TimesTwice(Tile(W, m).0, W / 2);
      TimesTwice(Tile(W, m).1, m / 2);
    }
  }

  /** `low_component`: one input's contribution to the output word that starts at bit `first`. */
  function Component(W: nat, first: nat, bit: nat, v: nat): Word {
    if bit < first then ShiftDown(Bits(v, W), first - bit) else ShiftUp(Bits(v, W), bit - first)
  }

  /** The inputs that overlap the output word starting at tile bit `first`. */
  method Overlapping(first: nat, W: nat) returns (start: nat, last: nat)
    requires W > 0
    ensures start <= last && Times(start, W) <= first < Times(start, W) + W
    ensures Times(last, W) <= first + 63 < Times(last, W) + W
  {
    start, last := first / W, (first + 63) / W;
    DivTimes(first, W);
    DivTimes(first + 63, W);
    if last < start { TimesLess(last, start, W); }
  }

  /** `low_word`: the inputs that overlap one output word, or-ed together. */
  method LowWord(source: seq<nat>, W: nat, at: nat, O: nat, ghost to: nat) returns (word: Word)
    requires 0 < W < 64 && Times(at, W) == 64 * to
    requires at <= |source| && 64 * (to + O) + 64 <= Times(|source|, W)
    ensures forall k | 0 <= k < 64 :: word[k] == Fields(source, W)[64 * (to + O) + k]
  {
    hide Times, Fields;
    ghost var flat, base := Fields(source, W), 64 * (to + O);
    var i, last := Overlapping(O * 64, W);
    word := ZeroWord();
    TimesAdd(at, i, W);
    while i <= last
      invariant i <= last + 1 && Times(at + i, W) == 64 * to + Times(i, W)
      invariant i == last + 1 ==> Times(i, W) == Times(last, W) + W
      invariant forall k | 0 <= k < 64 :: word[k] == (base + k < Times(at + i, W) && flat[base + k])
    {
      InRange(source, W, at, i, last, base + 63, to);
      FieldAt(source, W, at + i);
      var component := Component(W, O * 64, Times(i, W), source[at + i]);
      Overlap(flat, W, base, Times(at + i, W), Bits(source[at + i], W), word, component, Or(word, component));
      word := Or(word, component);
      NextTimes(at, i, W);
      i := i + 1;
    }
  }

  lemma NextTimes(at: nat, i: nat, W: nat)
    ensures Times(at + (i + 1), W) == Times(at + i, W) + W && Times(i + 1, W) == Times(i, W) + W
  {
  }

  /** A field that starts at or before a section bit is one of the sources. */
  lemma InRange(source: seq<nat>, W: nat, at: nat, i: nat, last: nat, p: nat, to: nat)
    requires W > 0 && i <= last && Times(at, W) == 64 * to && 64 * to + Times(last, W) <= p < Times(|source|, W)
    ensures at + i < |source|
  {
    TimesMonotone(i, last, W);
    TimesAdd(at, i, W);
    if at + i >= |source| { TimesMonotone(|source|, at + i, W); }
  }

  /** Or-ing the component of the field at `bit` extends the finished part of a word by that field. */
  lemma Overlap(flat: seq<bool>, W: nat, base: nat, bit: nat, field: seq<bool>, was: Word, component: Word, word: Word)
    requires |field| == W && bit + W <= |flat| && flat[bit..bit + W] == field
    requires forall k | 0 <= k < 64 :: was[k] == (base + k < bit && flat[base + k])
    requires component == if bit < base then ShiftDown(field, base - bit) else ShiftUp(field, bit - base)
    requires word == Or(was, component)
    ensures forall k | 0 <= k < 64 :: word[k] == (base + k < bit + W && flat[base + k])
  {
    forall k | 0 <= k < 64 ensures word[k] == (base + k < bit + W && flat[base + k]) {
      if bit <= base + k < bit + W { assert flat[base + k] == field[base + k - bit]; }
    }
  }

  /** Words before `to` are finished. */
  ghost predicate Finished(out: seq<Word>, flat: seq<bool>, to: nat) {
    && to <= |out| && 64 * to <= |flat|
    && forall w, k | 0 <= w < to && 0 <= k < 64 :: out[w][k] == flat[64 * w + k]
  }

  /** Words from `to` on hold exactly the fields up to bit `end`. */
  ghost predicate Partial(out: seq<Word>, flat: seq<bool>, to: nat, end: nat) {
    && to <= |out| && end <= |flat|
    && forall w, k | to <= w < |out| && 0 <= k < 64 :: out[w][k] == (64 * w + k < end && flat[64 * w + k])
  }

  /** Whole tiles: each output word is assigned once. Returns where the incomplete tile starts. */
  method PackTiles(source: seq<nat>, out: array<Word>, W: nat) returns (at: nat, to: nat)
    requires 0 < W < 64 && out.Length == WordsFor(Times(|source|, W))
    modifies out
    ensures at <= |source| && Times(at, W) == 64 * to && Finished(out[..], Fields(source, W), to)
  {
    hide Times, Fields, Tile;
    var inputs, outputs := TileSize(W);
    at, to := 0, 0;
    TimesZero(W);
    while |source| - at >= inputs
      invariant at <= |source| && Times(at, W) == 64 * to && Finished(out[..], Fields(source, W), to)
      decreases |source| - at
    {
      TimesAdd(at, inputs, W);
      TimesMonotone(at + inputs, |source|, W);
      for O := 0 to outputs
        invariant Finished(out[..], Fields(source, W), to + O)
      {
        var word := LowWord(source, W, at, O, to);
        out[to + O] := word;
      }
      at, to := at + inputs, to + outputs;
    }
  }

  method TileSize(W: nat) returns (inputs: nat, outputs: nat)
    requires 0 < W < 64
    ensures inputs > 0 && Times(inputs, W) == 64 * outputs
  {
    var t := Tile(W, 64);
    TileAligned(W, 64);
    TimesIs(t.1, 64);
    inputs, outputs := t.0, t.1;
  }

  lemma TimesZero(W: nat)
    ensures Times(0, W) == 0
  {
  }

  /** The words a field of the incomplete tile touches: one, or two across a word boundary. */
  function WithField(out: seq<Word>, field: seq<bool>, bit: nat): (next: seq<Word>)
    requires bit / 64 < |out| && (bit % 64 + |field| > 64 ==> bit / 64 + 1 < |out|)
    ensures |next| == |out|
  {
    var w, shift := bit / 64, bit % 64;
    var first := out[w := Or(out[w], ShiftUp(field, shift))];
    if shift + |field| > 64 then first[w + 1 := Or(out[w + 1], ShiftDown(field, 64 - shift))] else first
  }

  lemma FieldPlaced(out: seq<Word>, flat: seq<bool>, to: nat, bit: nat, field: seq<bool>, x: nat)
    requires 0 < |field| < 64 && 64 * to <= bit && bit + |field| <= |flat| && flat[bit..bit + |field|] == field
    requires |out| == WordsFor(|flat|) && Partial(out, flat, to, bit) && to <= x < |out|
    ensures bit / 64 < |out| && (bit % 64 + |field| > 64 ==> bit / 64 + 1 < |out|)
    ensures forall k | 0 <= k < 64 :: WithField(out, field, bit)[x][k] == (64 * x + k < bit + |field| && flat[64 * x + k])
  {
    var w, shift := bit / 64, bit % 64;
    if x == w {
      FirstWord(out[x], flat, |field|, bit, field);
    } else if x == w + 1 && shift + |field| > 64 {
      SecondWord(out[x], flat, |field|, bit, field);
    }
  }

  /** A word of the section complete up to `end`. */
  ghost predicate WordUpTo(word: Word, flat: seq<bool>, x: nat, end: nat) {
    end <= |flat| && forall k | 0 <= k < 64 :: word[k] == (64 * x + k < end && flat[64 * x + k])
  }

  lemma FirstWord(word: Word, flat: seq<bool>, size: nat, bit: nat, field: seq<bool>)
    requires 0 < size == |field| < 64 && bit + size <= |flat| && flat[bit..bit + size] == field
    requires WordUpTo(word, flat, bit / 64, bit)
    ensures WordUpTo(Or(word, ShiftUp(field, bit % 64)), flat, bit / 64, bit + size)
  {
    var x, up := bit / 64, ShiftUp(field, bit % 64);
    Overlap(flat, size, 64 * x, bit, field, word, up, Or(word, up));
  }

  lemma SecondWord(word: Word, flat: seq<bool>, size: nat, bit: nat, field: seq<bool>)
    requires 0 < size == |field| < 64 && bit + size <= |flat| && flat[bit..bit + size] == field
    requires bit % 64 + size > 64 && WordUpTo(word, flat, bit / 64 + 1, bit)
    ensures WordUpTo(Or(word, ShiftDown(field, 64 - bit % 64)), flat, bit / 64 + 1, bit + size)
  {
    var x, down := bit / 64 + 1, ShiftDown(field, 64 - bit % 64);
    Overlap(flat, size, 64 * x, bit, field, word, down, Or(word, down));
  }

  /** One field of the incomplete tile. */
  method PackField(out: array<Word>, field: seq<bool>, to: nat, bit: nat, ghost flat: seq<bool>)
    requires 0 < |field| < 64 && 64 * to <= bit && bit + |field| <= |flat| && flat[bit..bit + |field|] == field
    requires out.Length == WordsFor(|flat|) && Partial(out[..], flat, to, bit)
    modifies out
    ensures Partial(out[..], flat, to, bit + |field|)
    ensures forall w | 0 <= w < to :: out[w] == old(out[w])
  {
    ghost var was := out[..];
    forall x | to <= x < |was|
      ensures bit / 64 < |was| && (bit % 64 + |field| > 64 ==> bit / 64 + 1 < |was|)
      ensures forall k | 0 <= k < 64 :: WithField(was, field, bit)[x][k] == (64 * x + k < bit + |field| && flat[64 * x + k])
    {
      FieldPlaced(was, flat, to, bit, field, x);
    }
    var w, shift := bit / 64, bit % 64;
    out[w] := Or(out[w], ShiftUp(field, shift));
    if shift + |field| > 64 {
      out[w + 1] := Or(out[w + 1], ShiftDown(field, 64 - shift));
    }
    assert out[..] == WithField(was, field, bit);
  }

  method PackTail(source: seq<nat>, out: array<Word>, W: nat, at: nat, to: nat)
    requires 0 < W < 64 && out.Length == WordsFor(Times(|source|, W))
    requires at <= |source| && Times(at, W) == 64 * to && Finished(out[..], Fields(source, W), to)
    modifies out
    ensures Finished(out[..], Fields(source, W), to)
    ensures Partial(out[..], Fields(source, W), to, Times(|source|, W))
  {
    hide Times, Fields, Bits;
    TimesMonotone(at, |source|, W);
    ghost var flat := Fields(source, W);
    for w := to to out.Length
      invariant forall x | 0 <= x < to :: out[x] == old(out[x])
      invariant forall x | to <= x < w :: out[x] == ZeroWord()
    {
      out[w] := ZeroWord();
    }
    for i := at to |source|
      invariant 64 * to <= Times(i, W) && Partial(out[..], flat, to, Times(i, W))
      invariant forall x | 0 <= x < to :: out[x] == old(out[x])
    {
      FieldAt(source, W, i);
      PackField(out, Bits(source[i], W), to, Times(i, W), flat);
      NextTimes(0, i, W);
    }
  }

  /** `pack_low`: the destination may hold anything; afterwards every bit is a field bit or zero padding. */
  method PackLow(source: seq<nat>, out: array<Word>, W: nat)
    requires W < 64 && out.Length == WordsFor(Times(|source|, W))
    modifies out
    ensures LowExact(out[..], Fields(source, W))
  {
    if W == 0 {
      TimesIs(|source|, 0);
      return;
    }
    var at, to := PackTiles(source, out, W);
    PackTail(source, out, W, at, to);
    Packed(out[..], Fields(source, W), to);
  }

  lemma Packed(out: seq<Word>, flat: seq<bool>, to: nat)
    requires |out| == WordsFor(|flat|) && Finished(out, flat, to) && Partial(out, flat, to, |flat|)
    ensures LowExact(out, flat)
  {
    forall p | 0 <= p < 64 * |out| ensures BitAt(out, p) == (p < |flat| && flat[p]) {
      var w, k := p / 64, p % 64;
      assert p == 64 * w + k;
      if w < to {
        assert out[w][k] == flat[64 * w + k];
      } else {
        assert out[w][k] == (64 * w + k < |flat| && flat[64 * w + k]);
      }
    }
  }

  /** The low half of `decode`: one or two words, shifted together and masked. */
  method ReadLow(low: seq<Word>, W: nat, ordinal: nat, ghost source: seq<nat>) returns (field: seq<bool>)
    requires W < 64 && ordinal < |source| && LowExact(low, Fields(source, W))
    ensures field == Bits(source[ordinal], W)
  {
    if W == 0 { return []; }
    FieldAt(source, W, ordinal);
    var bit := Times(ordinal, W);
    var w, shift := bit / 64, bit % 64;
    var word := ShiftDown(low[w], shift);
    if shift + W > 64 { word := Or(word, ShiftUp(low[w + 1], 64 - shift)); }
    field := word[..W];
    ReadBack(low, Fields(source, W), bit, W, word);
  }

  lemma ReadBack(low: seq<Word>, flat: seq<bool>, bit: nat, W: nat, word: Word)
    requires 0 < W < 64 && LowExact(low, flat) && bit + W <= |flat|
    requires var w, shift := bit / 64, bit % 64;
             word == if shift + W > 64 then Or(ShiftDown(low[w], shift), ShiftUp(low[w + 1], 64 - shift))
                     else ShiftDown(low[w], shift)
    ensures word[..W] == flat[bit..bit + W]
  {
    forall j | 0 <= j < W ensures word[j] == flat[bit + j] {
      assert BitAt(low, bit + j) == flat[bit + j];
      var shift := bit % 64;
      if shift + j < 64 { assert (bit + j) / 64 == bit / 64 && (bit + j) % 64 == shift + j; }
      else { assert (bit + j) / 64 == bit / 64 + 1 && (bit + j) % 64 == shift + j - 64; }
    }
  }
}
