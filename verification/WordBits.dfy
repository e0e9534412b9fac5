/** A machine word and its 64 bits: counting and selecting agree, so the portable word selection serves the
    Elias-Fano directory. */
module WordBits {
  import opened BitStrings
  import opened SelectWords

  /** k as a machine number. */
  function Number(k: nat): bv64
    requires k <= 64
  {
    if k == 0 then 0 else Number(k - 1) + 1
  }

  lemma {:induction false} NumberIs(k: nat)
    requires k <= 64
    ensures Number(k) as nat == k
  {
    if k > 0 { NumberIs(k - 1); }
  }

  lemma NumberOrder(i: nat, j: nat)
    requires i <= 64 && j <= 64
    ensures Number(i) < Number(j) <==> i < j
    ensures Number(i) == Number(j) <==> i == j
  {
    NumberIs(i);
    NumberIs(j);
  }

  /** The bits of a word, lowest first. */
  function BitsOf(x: bv64): (word: Word)
    ensures forall k | 0 <= k < 64 :: word[k] == BitSet(x, Number(k))
  {
    seq(64, k requires 0 <= k < 64 => BitSet(x, Number(k)))
  }

  // ----- counting bit by bit

  /** One more bit of a byte. */
  lemma LaneNext(x: bv64, d: bv64)
    requires x <= 255 && d < 7
    ensures Pop8(Below(x, d + 1)) == Plus(Pop8(Below(x, d)), (x >> d) & 1)
  {
  }

  lemma LaneHas(x: bv64, s: bv64, r: bv64)
    requires LaneShift(s) && s <= r < 64 && r - s < 8
    ensures (Lane(x, s) >> (r - s)) & 1 == (x >> r) & 1 && (x >> r) & 1 <= 1 && Lane(x, s) <= 255
  {
  }

  lemma NothingBelow(x: bv64)
    ensures Pop8(Below(x, 0)) == 0
  {
  }

  lemma PlusZero(x: bv64)
    ensures Plus(x, 0) == x
  {
  }

  lemma ByteCases(s: bv64, r: bv64)
    requires LaneShift(s) && s <= r < 63
    ensures r - s < 7 ==> r + 1 - s < 8 && r - s < 8 && r + 1 - s == (r - s) + 1 && r + 1 < 64
    ensures r - s >= 7 ==> LaneShift(s + 8) && s + 8 <= r + 1 < 64 && r + 1 - s >= 8 && 64 - (s + 8) < 64 - s && s < s + 8
    ensures r - s == 7 ==> s + 8 == r + 1 && r - s < 8 && r + 1 - (s + 8) == 0
    ensures r - s > 7 ==> r - s >= 8 && s + 8 <= r
  {
  }

  lemma CountFits(count: bv64, s: bv64, more: bv64)
    requires LaneShift(s) && s < 56 && count <= s && more <= 8
    ensures Plus(count, more) <= s + 8
  {
  }

  lemma RoomLeft(s: bv64, r: bv64)
    requires LaneShift(s) && s <= r < 63 && r - s >= 7
    ensures s < 56
  {
  }

  lemma SmallCount(count: bv64, s: bv64)
    requires LaneShift(s) && count <= s
    ensures count <= 255
  {
  }

  lemma RankHere(count: bv64, x: bv64, s: bv64, r: bv64)
    requires LaneShift(s) && s <= r < 64 && r - s < 8
    ensures RankFrom(count, x, s, r) == Plus(count, Pop8(Below(Lane(x, s), r - s)))
  {
    hide Lane, Pop8, Below, Plus, LaneShift;
  }

  lemma RankOn(count: bv64, x: bv64, s: bv64, r: bv64)
    requires LaneShift(s) && s <= r < 64 && r - s >= 8 && LaneShift(s + 8) && s + 8 <= r
    ensures RankFrom(count, x, s, r) == RankFrom(Plus(count, Pop8(Lane(x, s))), x, s + 8, r)
  {
    hide Lane, Pop8, Below, Plus, LaneShift;
  }

  lemma NextHere(count: bv64, lane: bv64, d: bv64, bit: bv64)
    requires d < 7 && lane <= 255 && count <= 255 && bit == (lane >> d) & 1 && bit <= 1
    ensures Plus(count, Pop8(Below(lane, d + 1))) == Plus(Plus(count, Pop8(Below(lane, d))), bit)
  {
    PopSmall(Below(lane, d));
    LaneNext(lane, d);
    hide Pop8, Below, Plus;
    PlusAssociates(count, Pop8(Below(lane, d)), bit);
  }

  lemma NextByte(count: bv64, x: bv64, s: bv64, r: bv64, next: bv64)
    requires LaneShift(s) && s <= r < 63 && r - s == 7 && count <= 255 && next <= 56
    ensures Plus(Plus(count, Pop8(Lane(x, s))), Pop8(Below(Lane(x, next), 0)))
         == Plus(Plus(count, Pop8(Below(Lane(x, s), r - s))), (x >> r) & 1)
  {
    LaneHas(x, s, r);
    TopPop(Lane(x, s));
    PopSmall(Below(Lane(x, s), 7));
    NothingBelow(Lane(x, next));
    PlusZero(Plus(count, Pop8(Lane(x, s))));
    hide Lane, Pop8, Below, Plus, LaneShift;
    PlusAssociates(count, Pop8(Below(Lane(x, s), 7)), (x >> r) & 1);
  }

  lemma LastLane(s: bv64)
    requires LaneShift(s)
    ensures s <= 56
  {
  }

  /** One more bit inside a lane. */
  lemma RankInside(count: bv64, x: bv64, s: bv64, r: bv64)
    requires LaneShift(s) && s <= r < 63 && count <= s && r - s < 7
    ensures RankFrom(count, x, s, r + 1) == Plus(RankFrom(count, x, s, r), (x >> r) & 1)
  {
    ByteCases(s, r);
    SmallCount(count, s);
    hide Lane, Pop8, Below, Plus, LaneShift, RankFrom;
    RankHere(count, x, s, r);
    RankHere(count, x, s, r + 1);
    LaneHas(x, s, r);
    NextHere(count, Lane(x, s), r - s, (x >> r) & 1);
  }

  /** The last bit of a lane. */
  lemma RankAcross(count: bv64, x: bv64, s: bv64, r: bv64)
    requires LaneShift(s) && s <= r < 63 && count <= s && r - s == 7
    ensures RankFrom(count, x, s, r + 1) == Plus(RankFrom(count, x, s, r), (x >> r) & 1)
  {
    ByteCases(s, r);
    SmallCount(count, s);
    LastLane(s + 8);
    hide Lane, Pop8, Below, Plus, LaneShift, RankFrom;
    RankHere(count, x, s, r);
    RankOn(count, x, s, r + 1);
    RankHere(Plus(count, Pop8(Lane(x, s))), x, s + 8, r + 1);
    NextByte(count, x, s, r, s + 8);
  }

  /** One more bit of the word. */
  lemma {:induction false} RankFromNext(count: bv64, x: bv64, s: bv64, r: bv64)
    requires LaneShift(s) && s <= r < 63 && count <= s
    ensures s <= r + 1 < 64 && RankFrom(count, x, s, r + 1) == Plus(RankFrom(count, x, s, r), (x >> r) & 1)
    decreases 64 - s
  {
    ByteCases(s, r);
    PopSmall(Lane(x, s));
    hide Lane, Pop8, Below, Plus, LaneShift, RankFrom;
    if r - s < 7 {
      RankInside(count, x, s, r);
    } else if r - s == 7 {
      RankAcross(count, x, s, r);
    } else {
      RoomLeft(s, r);
      CountFits(count, s, Pop8(Lane(x, s)));
      RankOn(count, x, s, r);
      RankOn(count, x, s, r + 1);
      RankFromNext(Plus(count, Pop8(Lane(x, s))), x, s + 8, r);
    }
  }

  lemma RankNext(x: bv64, r: bv64)
    requires r < 63
    ensures Rank(x, r + 1) == Plus(Rank(x, r), (x >> r) & 1)
  {
    hide Lane, Pop8, Below, Plus, RankFrom;
    RankFromNext(0, x, 0, r);
  }

  lemma RankZero(x: bv64)
    ensures Rank(x, 0) == 0
  {
    NothingBelow(Lane(x, 0));
    hide Lane, Pop8, Below;
  }

  lemma OneOrZero(x: bv64, r: bv64)
    requires r < 64
    ensures (x >> r) & 1 == if BitSet(x, r) then 1 else 0
  {
  }

  lemma AddOne(k: nat, b: bool)
    requires k < 64
    ensures Plus(Number(k), if b then 1 else 0) == Number(if b then k + 1 else k)
  {
    PlusZero(Number(k));
  }

  lemma NumberNext(k: nat)
    requires k < 63
    ensures Number(k) < 63 && Number(k + 1) == Number(k) + 1
  {
    NumberOrder(k, 63);
    NumberIs(63);
  }

  lemma BelowWidth(k: nat)
    requires k < 64
    ensures Number(k) < 64
  {
    NumberIs(k);
  }

  /** Counting a word's bits below position k, by bytes or one by one. */
  lemma {:induction false} RankIs(x: bv64, k: nat)
    requires k < 64
    ensures Number(k) < 64 && Rank(x, Number(k)) == Number(PopCount(BitsOf(x)[..k]))
  {
    BelowWidth(k);
    if k == 0 {
      RankZero(x);
    } else {
      RankIs(x, k - 1);
      NumberNext(k - 1);
      hide Rank, BitsOf, Number, PopCount;
      RankStep(x, Number(k - 1));
      RankBit(x, k - 1, Rank(x, Number(k - 1)));
    }
  }

  lemma RankStep(x: bv64, r: bv64)
    requires r < 63
    ensures Rank(x, r + 1) == Plus(Rank(x, r), if BitSet(x, r) then 1 else 0)
  {
    RankNext(x, r);
    OneOrZero(x, r);
  }

  lemma PopNext(word: Word, k: nat)
    requires k < 64
    ensures PopCount(word[..k + 1]) == PopCount(word[..k]) + (if word[k] then 1 else 0)
    ensures PopCount(word[..k]) < 64
  {
    assert word[..k + 1] == word[..k] + [word[k]];
    assert word[..k + 1][..k] == word[..k];
  }

  lemma RankBit(x: bv64, k: nat, rank: bv64)
    requires k < 64 && rank == Number(PopCount(BitsOf(x)[..k]))
    ensures Plus(rank, if BitSet(x, Number(k)) then 1 else 0) == Number(PopCount(BitsOf(x)[..k + 1]))
  {
    hide *;
    var word := BitsOf(x);
    PopNext(word, k);
    assert word[k] == BitSet(x, Number(k));
    AddOne(PopCount(word[..k]), word[k]);
  }

  /** The word selection and the bit selection are the same. */
  lemma SelectAgrees(x: bv64, n: nat, k: nat)
    requires n < 64 && k < 64
    ensures IsSelected(x, Number(n), Number(k)) <==> IsSelect(BitsOf(x), n, k)
  {
    RankIs(x, k);
    hide Rank, Number, PopCount;
    NumberOrder(n, PopCount(BitsOf(x)[..k]));
  }

  /** A word's population is the number of its bits. */
  lemma PopulationAgrees(x: bv64)
    ensures SelectWords.Population(x) == Number(PopCount(BitsOf(x)))
  {
    RankIs(x, 63);
    var word := BitsOf(x);
    assert word == word[..63] + [word[63]];
    SixtyThree();
    OneOrZero(x, 63);
    hide Rank, Plus, BitSet, Number, BitsOf;
    AddOne(PopCount(word[..63]), word[63]);
  }

  lemma SixtyThree()
    ensures Number(63) == 63
  {
    NumberIs(63);
  }

  // ----- selecting in a word given by its bits

  lemma SetOneBit(x: bv64, c: bv64, d: bv64)
    requires c < 64 && d < 64
    ensures BitSet(x | (1 << c), d) <==> BitSet(x, d) || d == c
  {
  }

  /** The word with these bits. */
  method ToWord(word: Word) returns (x: bv64)
    ensures BitsOf(x) == word
  {
    x := 0;
    var at: bv64 := 0;
    for k := 0 to 64
      invariant at == Number(k)
      invariant forall i | 0 <= i < 64 :: BitSet(x, Number(i)) <==> i < k && word[i]
    {
      hide BitSet;
      BelowWidth(k);
      ghost var before := x;
      if word[k] { x := x | (1 << at); }
      forall i | 0 <= i < 64 ensures BitSet(x, Number(i)) <==> i < k + 1 && word[i] {
        BelowWidth(i);
        NumberOrder(i, k);
        SetOneBit(before, at, Number(i));
      }
      at := at + 1;
    }
    assert BitsOf(x) == word;
  }

  /** `select_word` on the bits of a word: exactly the bit with `n` set bits below it. */
  method SelectBit(word: Word, n: nat) returns (k: nat)
    requires n < PopCount(word)
    ensures IsSelect(word, n, k)
  {
    hide Number, BitsOf, PopCount, SelectWords.Population, IsSelected, IsSelect, Rank, BitSet;
    var x := ToWord(word);
    OrdinalBelow(x, n);
    var r := SelectWord(x, Number(n));
    SelectedBelow(x, Number(n), r);
    k := PositionOf(r);
    SelectAgrees(x, n, k);
  }

  lemma OrdinalBelow(x: bv64, n: nat)
    requires n < PopCount(BitsOf(x))
    ensures n < 64 && Number(n) < SelectWords.Population(x)
  {
    hide Number, BitsOf, PopCount, SelectWords.Population;
    PopulationAgrees(x);
    NumberOrder(n, PopCount(BitsOf(x)));
  }

  lemma SelectedBelow(x: bv64, ordinal: bv64, r: bv64)
    requires IsSelected(x, ordinal, r)
    ensures r < 64
  {
  }

  /** A machine position as an index. */
  method PositionOf(r: bv64) returns (k: nat)
    requires r < 64
    ensures k < 64 && Number(k) == r
  {
    k := 0;
    var at: bv64 := 0;
    assert Number(0) == 0;
    hide Number;
    while at != r
      invariant k < 64 && at == Number(k) && at <= r < 64
      decreases 64 - k
    {
      StepTo(k, r);
      k, at := k + 1, at + 1;
    }
  }

  lemma StepTo(k: nat, r: bv64)
    requires k < 64 && Number(k) < r < 64
    ensures k + 1 < 64 && Number(k + 1) == Number(k) + 1 <= r
  {
    if k == 63 { SixtyThree(); } else { NumberNext(k); }
  }
}
