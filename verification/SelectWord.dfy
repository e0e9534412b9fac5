/** Portable selection inside a 64-bit word (select_word): byte-prefix populations by one multiplication, the byte by
    one marked comparison, then nibble, pair and bit. No lane carries or borrows into another.

    All counts are 64-bit words, as in the original; none exceeds 64. */
module SelectWords {

  // ----- the simple form: counting bits one by one

  function Pop4(x: bv64): bv64 {
    (x & 1) + ((x >> 1) & 1) + ((x >> 2) & 1) + ((x >> 3) & 1)
  }

  function Pop8(x: bv64): bv64 {
    Pop4(x & 15) + Pop4((x >> 4) & 15)
  }

  /** The byte at bit s. */
  function Lane(x: bv64, s: bv64): bv64
    requires s <= 56
  {
    (x >> s) & 255
  }

  /** The bits below position r. */
  function Below(x: bv64, r: bv64): bv64
    requires r < 64
  {
    x & ((1 << r) - 1)
  }

  function Plus(x: bv64, y: bv64): bv64 {
    x + y
  }

  predicate LaneShift(s: bv64) {
    s <= 56 && s & 7 == 0
  }

  /** `count` plus the set bits of x below position r, from byte s on. */
  function RankFrom(count: bv64, x: bv64, s: bv64, r: bv64): bv64
    requires LaneShift(s) && s <= r < 64
    decreases 64 - s
  {
    if r - s < 8 then Plus(count, Pop8(Below(Lane(x, s), r - s)))
    else RankFrom(Plus(count, Pop8(Lane(x, s))), x, s + 8, r)
  }

  /** The set bits of x below position r. */
  function Rank(x: bv64, r: bv64): bv64
    requires r < 64
  {
    RankFrom(0, x, 0, r)
  }

  /** All set bits. */
  function Population(x: bv64): bv64 {
    Plus(Rank(x, 63), (x >> 63) & 1)
  }

  predicate BitSet(m: bv64, c: bv64) {
    c < 64 && (m >> c) & 1 == 1
  }

  /** Bit r is set and exactly `ordinal` set bits lie below it. */
  predicate IsSelected(x: bv64, ordinal: bv64, r: bv64) {
    BitSet(x, r) && Rank(x, r) == ordinal
  }

  // ----- lanes

  /** Every byte is below 128. */
  predicate Small(x: bv64) {
    x & 0x8080_8080_8080_8080 == 0
  }

  // 64-bit arithmetic by name, so that a proof can use what is known of a result without its bits.

  function Minus(x: bv64, y: bv64): bv64 {
    x - y
  }

  /** k in every byte. */
  function Spread(k: bv64): bv64 {
    k * 0x0101_0101_0101_0101
  }

  // Bytes below 128 add without a carry, byte by byte.

  lemma Add0(x: bv64, y: bv64)
    requires Small(x) && Small(y)
    ensures Lane(x + y, 0) == Lane(x, 0) + Lane(y, 0)
  {
  }

  lemma Add8(x: bv64, y: bv64)
    requires Small(x) && Small(y)
    ensures Lane(x + y, 8) == Lane(x, 8) + Lane(y, 8)
  {
  }

  lemma Add16(x: bv64, y: bv64)
    requires Small(x) && Small(y)
    ensures Lane(x + y, 16) == Lane(x, 16) + Lane(y, 16)
  {
  }

  lemma Add24(x: bv64, y: bv64)
    requires Small(x) && Small(y)
    ensures Lane(x + y, 24) == Lane(x, 24) + Lane(y, 24)
  {
  }

  lemma Add32(x: bv64, y: bv64)
    requires Small(x) && Small(y)
    ensures Lane(x + y, 32) == Lane(x, 32) + Lane(y, 32)
  {
  }

  lemma Add40(x: bv64, y: bv64)
    requires Small(x) && Small(y)
    ensures Lane(x + y, 40) == Lane(x, 40) + Lane(y, 40)
  {
  }

  lemma Add48(x: bv64, y: bv64)
    requires Small(x) && Small(y)
    ensures Lane(x + y, 48) == Lane(x, 48) + Lane(y, 48)
  {
  }

  lemma Add56(x: bv64, y: bv64)
    requires Small(x) && Small(y)
    ensures Lane(x + y, 56) == Lane(x, 56) + Lane(y, 56)
  {
  }

  /** The eight shifts. */
  lemma Shifts(s: bv64)
    requires LaneShift(s)
    ensures s == 0 || s == 8 || s == 16 || s == 24 || s == 32 || s == 40 || s == 48 || s == 56
  {
  }

  lemma ShiftedLane(x: bv64, s: bv64)
    requires LaneShift(s)
    ensures Lane(x << 8, s) == if s == 0 then 0 else Lane(x, s - 8)
  {
  }

  // ----- the population steps

  function Pairs(value: bv64): bv64 {
    value - ((value >> 1) & 0x5555_5555_5555_5555)
  }

  function Nibbles(pairs: bv64): bv64 {
    (pairs & 0x3333_3333_3333_3333) + ((pairs >> 2) & 0x3333_3333_3333_3333)
  }

  function Bytes(nibbles: bv64): bv64 {
    (nibbles + (nibbles >> 4)) & 0x0f0f_0f0f_0f0f_0f0f
  }

  /** Subtracting the high bits of the pairs borrows from no other pair. */
  lemma PairsExact(value: bv64)
    ensures Pairs(value) == (value & 0x5555_5555_5555_5555) + ((value >> 1) & 0x5555_5555_5555_5555)
  {
  }

  lemma PairLane(value: bv64, q: bv64)
    requires q < 64 && q & 1 == 0
    ensures (((value & 0x5555_5555_5555_5555) + ((value >> 1) & 0x5555_5555_5555_5555)) >> q) & 3
         == ((value >> q) & 1) + ((value >> (q + 1)) & 1)
  {
  }

  lemma NibbleLane(pairs: bv64, q: bv64)
    requires q < 64 && q & 3 == 0
    ensures (Nibbles(pairs) >> q) & 15 == ((pairs >> q) & 3) + ((pairs >> (q + 2)) & 3)
  {
  }

  /** Every nibble counts its own four bits. */
  lemma NibblesExact(value: bv64, q: bv64)
    requires q < 64 && q & 3 == 0
    ensures Nibble(Nibbles(Pairs(value)), q) == Pop4(Nibble(value, q))
  {
    PairsExact(value);
    PairLane(value, q);
    PairLane(value, q + 2);
    NibbleLane(Pairs(value), q);
    FourBits(value, q);
  }

  lemma FourBits(value: bv64, q: bv64)
    requires q < 64 && q & 3 == 0
    ensures Pop4((value >> q) & 15)
         == ((value >> q) & 1) + ((value >> (q + 1)) & 1) + (((value >> (q + 2)) & 1) + ((value >> (q + 3)) & 1))
  {
  }

  function Nibble(x: bv64, q: bv64): bv64
    requires q < 64
  {
    (x >> q) & 15
  }

  lemma LaneNibbles(value: bv64, s: bv64)
    requires LaneShift(s)
    ensures Lane(value, s) & 15 == Nibble(value, s) && (Lane(value, s) >> 4) & 15 == Nibble(value, s + 4)
  {
  }

  lemma ByteNibbles(value: bv64, s: bv64)
    requires LaneShift(s)
    ensures Pop8(Lane(value, s)) == Plus(Pop4(Nibble(value, s)), Pop4(Nibble(value, s + 4)))
  {
    LaneNibbles(value, s);
    hide Pop4, Lane, Nibble;
  }

  /** Every byte counts its own eight bits. */
  lemma BytesExact(value: bv64, s: bv64)
    requires LaneShift(s)
    ensures Lane(Bytes(Nibbles(Pairs(value))), s) == Pop8(Lane(value, s))
  {
    NibblesExact(value, s);
    NibblesExact(value, s + 4);
    SmallNibbles(Pairs(value));
    hide Nibbles, Pairs, Pop4, Pop8, Lane, Nibble, Bytes, Plus;
    ByteLane(Nibbles(Pairs(value)), s);
    ByteNibbles(value, s);
  }

  lemma SmallNibbles(pairs: bv64)
    ensures Nibbles(pairs) & 0x8888_8888_8888_8888 == 0
  {
  }

  lemma ByteLane(nibbles: bv64, s: bv64)
    requires nibbles & 0x8888_8888_8888_8888 == 0 && LaneShift(s)
    ensures Lane(Bytes(nibbles), s) == Plus(Nibble(nibbles, s), Nibble(nibbles, s + 4))
  {
  }

  // ----- prefix populations

  /** Every byte is below 16. */
  predicate Narrow(b: bv64) {
    b & 0xf0f0_f0f0_f0f0_f0f0 == 0
  }

  /** One multiplication adds every byte to all the bytes above it. */
  lemma Doubling(b: bv64)
    ensures b * 0x0101_0101_0101_0101 == b + ((b * 0x0101_0101_0101_0101) << 8)
  {
  }

  lemma Step8(b: bv64)
    ensures b + (b << 8) == b * 0x0101
  {
  }

  lemma Step16(b: bv64)
    ensures b * 0x0101 + ((b * 0x0101) << 16) == b * 0x0101_0101
  {
  }

  lemma Step32(b: bv64)
    ensures b * 0x0101_0101 + ((b * 0x0101_0101) << 32) == b * 0x0101_0101_0101_0101
  {
  }

  lemma Spread8(b: bv64)
    requires Narrow(b)
    ensures (b + (b << 8)) & 0xe0e0_e0e0_e0e0_e0e0 == 0
  {
  }

  lemma Spread16(b: bv64)
    requires b & 0xe0e0_e0e0_e0e0_e0e0 == 0
    ensures (b + (b << 16)) & 0xc0c0_c0c0_c0c0_c0c0 == 0
  {
  }

  lemma Spread32(b: bv64)
    requires b & 0xc0c0_c0c0_c0c0_c0c0 == 0
    ensures Small(b + (b << 32))
  {
  }

  /** All prefix sums stay below 128: no byte ever carries. */
  lemma PrefixesSmall(b: bv64)
    requires Narrow(b)
    ensures Small(Spread(b))
  {
    Spread8(b);
    Step8(b);
    Spread16(b * 0x0101);
    Step16(b);
    Spread32(b * 0x0101_0101);
    Step32(b);
  }

  /** Byte s of the prefixes adds byte s of the counts to the prefix before it. */
  predicate PrefixStep(b: bv64, p: bv64, s: bv64) {
    LaneShift(s) && Lane(p, s) == Plus(Prior(p, s), Lane(b, s))
  }

  lemma Prefix0(b: bv64, p: bv64)
    requires Narrow(b) && p == Spread(b)
    ensures PrefixStep(b, p, 0)
  {
    Doubling(b);
    PrefixesSmall(b);
    NarrowSmall(b, p);
    hide Lane, Small;
    Add0(b, p << 8);
    ShiftedLane(p, 0);
  }

  lemma Prefix8(b: bv64, p: bv64)
    requires Narrow(b) && p == Spread(b)
    ensures PrefixStep(b, p, 8)
  {
    Doubling(b);
    PrefixesSmall(b);
    NarrowSmall(b, p);
    hide Lane, Small;
    Add8(b, p << 8);
    ShiftedLane(p, 8);
  }

  lemma Prefix16(b: bv64, p: bv64)
    requires Narrow(b) && p == Spread(b)
    ensures PrefixStep(b, p, 16)
  {
    Doubling(b);
    PrefixesSmall(b);
    NarrowSmall(b, p);
    hide Lane, Small;
    Add16(b, p << 8);
    ShiftedLane(p, 16);
  }

  lemma Prefix24(b: bv64, p: bv64)
    requires Narrow(b) && p == Spread(b)
    ensures PrefixStep(b, p, 24)
  {
    Doubling(b);
    PrefixesSmall(b);
    NarrowSmall(b, p);
    hide Lane, Small;
    Add24(b, p << 8);
    ShiftedLane(p, 24);
  }

  lemma Prefix32(b: bv64, p: bv64)
    requires Narrow(b) && p == Spread(b)
    ensures PrefixStep(b, p, 32)
  {
    Doubling(b);
    PrefixesSmall(b);
    NarrowSmall(b, p);
    hide Lane, Small;
    Add32(b, p << 8);
    ShiftedLane(p, 32);
  }

  lemma Prefix40(b: bv64, p: bv64)
    requires Narrow(b) && p == Spread(b)
    ensures PrefixStep(b, p, 40)
  {
    Doubling(b);
    PrefixesSmall(b);
    NarrowSmall(b, p);
    hide Lane, Small;
    Add40(b, p << 8);
    ShiftedLane(p, 40);
  }

  lemma Prefix48(b: bv64, p: bv64)
    requires Narrow(b) && p == Spread(b)
    ensures PrefixStep(b, p, 48)
  {
    Doubling(b);
    PrefixesSmall(b);
    NarrowSmall(b, p);
    hide Lane, Small;
    Add48(b, p << 8);
    ShiftedLane(p, 48);
  }

  lemma Prefix56(b: bv64, p: bv64)
    requires Narrow(b) && p == Spread(b)
    ensures PrefixStep(b, p, 56)
  {
    Doubling(b);
    PrefixesSmall(b);
    NarrowSmall(b, p);
    hide Lane, Small;
    Add56(b, p << 8);
    ShiftedLane(p, 56);
  }

  lemma NarrowSmall(b: bv64, p: bv64)
    requires Narrow(b) && Small(p)
    ensures Small(b) && Small(p << 8)
  {
  }

  // ----- finding the byte

  /** The prefix before byte s. */
  function Prior(p: bv64, s: bv64): bv64
    requires LaneShift(s)
  {
    if s == 0 then 0 else Lane(p, s - 8)
  }

  lemma PriorBelow(p: bv64, s: bv64, k: bv64)
    requires LaneShift(s) && k >= 1 && (s >= 8 ==> s - 8 <= 56 && Lane(p, s - 8) < k)
    ensures Prior(p, s) < k
  {
    NotBetween(s);
    hide Lane, LaneShift;
  }

  lemma NotBetween(s: bv64)
    requires LaneShift(s)
    ensures s == 0 || s >= 8
  {
  }

  /** Byte s is marked when its prefix population reaches k. */
  function Marks(p: bv64, k: bv64): bv64 {
    Minus(WithTops(p), Spread(k)) & 0x8080_8080_8080_8080
  }

  /** Every byte is at least 128. */
  predicate Large(x: bv64) {
    x & 0x8080_8080_8080_8080 == 0x8080_8080_8080_8080
  }

  function WithTops(p: bv64): bv64 {
    p | 0x8080_8080_8080_8080
  }

  /** Byte s of the difference is the difference of the bytes. */
  predicate LaneMinus(x: bv64, y: bv64, s: bv64) {
    s <= 56 && Lane(Minus(x, y), s) == Lane(x, s) - Lane(y, s)
  }

  // Subtracting bytes below 128 from bytes of at least 128 borrows nothing, byte by byte.

  lemma Sub0(x: bv64, y: bv64)
    requires Large(x) && Small(y)
    ensures LaneMinus(x, y, 0)
  {
  }

  lemma Sub8(x: bv64, y: bv64)
    requires Large(x) && Small(y)
    ensures LaneMinus(x, y, 8)
  {
  }

  lemma Sub16(x: bv64, y: bv64)
    requires Large(x) && Small(y)
    ensures LaneMinus(x, y, 16)
  {
  }

  lemma Sub24(x: bv64, y: bv64)
    requires Large(x) && Small(y)
    ensures LaneMinus(x, y, 24)
  {
  }

  lemma Sub32(x: bv64, y: bv64)
    requires Large(x) && Small(y)
    ensures LaneMinus(x, y, 32)
  {
  }

  lemma Sub40(x: bv64, y: bv64)
    requires Large(x) && Small(y)
    ensures LaneMinus(x, y, 40)
  {
  }

  lemma Sub48(x: bv64, y: bv64)
    requires Large(x) && Small(y)
    ensures LaneMinus(x, y, 48)
  {
  }

  lemma Sub56(x: bv64, y: bv64)
    requires Large(x) && Small(y)
    ensures LaneMinus(x, y, 56)
  {
    TopMinus(x, y);
    LaneTop(x);
    LaneTop(y);
    LaneTop(Minus(x, y));
    hide Large, Small, Minus, Lane;
  }

  lemma LaneTop(x: bv64)
    ensures Lane(x, 56) == x >> 56
  {
  }

  lemma TopMinus(x: bv64, y: bv64)
    requires Large(x) && Small(y)
    ensures Minus(x, y) >> 56 == (x >> 56) - (y >> 56)
  {
  }

  lemma Repeated(k: bv64, s: bv64)
    requires k < 128 && LaneShift(s)
    ensures Small(Spread(k)) && Lane(Spread(k), s) == k
  {
  }

  lemma TopBit(difference: bv64, p: bv64, k: bv64, s: bv64)
    requires LaneShift(s) && Small(p) && 1 <= k <= 127
    requires Lane(difference, s) == Lane(WithTops(p), s) - k
    ensures BitSet(difference & 0x8080_8080_8080_8080, s + 7) <==> Lane(p, s) >= k
  {
  }

  lemma TopSet(p: bv64)
    ensures Large(WithTops(p))
  {
  }

  predicate LowZero(m: bv64, c: bv64) {
    c < 64 && m & ((1 << c) - 1) == 0
  }

  /** A byte is marked exactly when its prefix population reaches k. */
  lemma LaneMark(p: bv64, k: bv64, s: bv64)
    requires Small(p) && 1 <= k <= 127 && LaneShift(s)
    ensures BitSet(Marks(p, k), s + 7) <==> Lane(p, s) >= k
  {
    hide Small, Large, Lane, Minus, BitSet, Spread, WithTops;
    Repeated(k, s);
    TopSet(p);
    Differs(WithTops(p), Spread(k), s);
    TopBit(Minus(WithTops(p), Spread(k)), p, k, s);
  }

  lemma Differs(x: bv64, y: bv64, s: bv64)
    requires Large(x) && Small(y) && LaneShift(s)
    ensures LaneMinus(x, y, s)
  {
    hide Small, Large, LaneMinus;
    Shifts(s);
    if s == 0 { Sub0(x, y); }
    else if s == 8 { Sub8(x, y); }
    else if s == 16 { Sub16(x, y); }
    else if s == 24 { Sub24(x, y); }
    else if s == 32 { Sub32(x, y); }
    else if s == 40 { Sub40(x, y); }
    else if s == 48 { Sub48(x, y); }
    else { Sub56(x, y); }
  }

  /** `std::countr_zero` of a nonzero word. */
  method TrailingZeros(m: bv64) returns (c: bv64)
    requires m != 0
    ensures BitSet(m, c) && LowZero(m, c)
  {
    NoneBelow(m);
    hide BitSet, LowZero;
    c := 0;
    ghost var left: nat := 64;
    while !BitSet(m, c)
      invariant LowZero(m, c) && c as nat == 64 - left && left > 0
      decreases left
    {
      NextZero(m, c);
      c, left := c + 1, left - 1;
    }
  }

  lemma NoneBelow(m: bv64)
    ensures LowZero(m, 0)
  {
  }

  lemma NextZero(m: bv64, c: bv64)
    requires m != 0 && LowZero(m, c) && !BitSet(m, c)
    ensures c + 1 < 64 && LowZero(m, c + 1)
  {
  }

  /** Marks stand at bit 7 of their byte, and the byte before the first mark is unmarked. */
  lemma FirstMark(m: bv64, c: bv64, shift: bv64)
    requires m & 0x7f7f_7f7f_7f7f_7f7f == 0 && BitSet(m, c) && LowZero(m, c) && shift == c & 0x38
    ensures LaneShift(shift) && c == shift + 7
    ensures shift >= 8 ==> LaneShift(shift - 8) && !BitSet(m, shift - 8 + 7)
  {
  }

  lemma MarksOnly(p: bv64, k: bv64)
    ensures Marks(p, k) & 0x7f7f_7f7f_7f7f_7f7f == 0
  {
  }

  lemma MarkedWord(m: bv64, c: bv64)
    requires BitSet(m, c)
    ensures m != 0
  {
  }

  lemma LastShift()
    ensures LaneShift(56)
  {
  }

  /** The first byte whose prefix population reaches k. */
  method FindByte(prefixes: bv64, k: bv64) returns (shift: bv64)
    requires Small(prefixes) && 1 <= k <= 127 && k <= Lane(prefixes, 56)
    ensures LaneShift(shift) && Prior(prefixes, shift) < k <= Lane(prefixes, shift)
  {
    hide Small, Marks, Lane, BitSet, LowZero, LaneShift, Prior;
    LastShift();
    var marked := Marks(prefixes, k);
    LaneMark(prefixes, k, 56);
    MarkedWord(marked, 63);
    var c := TrailingZeros(marked);
    MarksOnly(prefixes, k);
    shift := c & 0x38;
    FirstMark(marked, c, shift);
    LaneMark(prefixes, k, shift);
    if shift >= 8 { LaneMark(prefixes, k, shift - 8); }
    PriorBelow(prefixes, shift, k);
  }

  // ----- inside the byte

  /** Pair and bit of a nibble. */
  function NibbleSelect(n: bv64, r: bv64): bv64 {
    var low := (n & 1) + ((n >> 1) & 1);
    if r >= low then 2 + (r - low) + (if (n >> 2) & 1 == 0 then 1 else 0)
    else r + (if n & 1 == 0 then 1 else 0)
  }

  lemma InNibble(n: bv64, r: bv64)
    requires n <= 15 && r < Pop4(n)
    ensures var u := NibbleSelect(n, r);
            u < 4 && (n >> u) & 1 == 1 && Pop4(n & ((1 << u) - 1)) == r
  {
  }

  /** A byte's count below bit u of its low or high nibble. */
  lemma NibbleBelow(x: bv64, u: bv64)
    requires x <= 255 && u < 4
    ensures Pop8(Below(x, u)) == Pop4((x & 15) & ((1 << u) - 1))
    ensures Pop8(Below(x, 4 + u)) == Pop4(x & 15) + Pop4(((x >> 4) & 15) & ((1 << u) - 1))
    ensures (x >> u) & 1 == ((x & 15) >> u) & 1 && (x >> (4 + u)) & 1 == (((x >> 4) & 15) >> u) & 1
  {
  }

  // ----- prefix populations are ranks

  /** The prefixes of a word's byte populations. */
  function PrefixesOf(value: bv64): bv64 {
    Spread(Bytes(Nibbles(Pairs(value))))
  }

  lemma NarrowBytes(nibbles: bv64)
    ensures Narrow(Bytes(nibbles))
  {
  }

  lemma StepAt(b: bv64, p: bv64, s: bv64)
    requires Narrow(b) && p == Spread(b) && LaneShift(s)
    ensures PrefixStep(b, p, s)
  {
    Shifts(s);
    hide PrefixStep;
    if s == 0 { Prefix0(b, p); }
    else if s == 8 { Prefix8(b, p); }
    else if s == 16 { Prefix16(b, p); }
    else if s == 24 { Prefix24(b, p); }
    else if s == 32 { Prefix32(b, p); }
    else if s == 40 { Prefix40(b, p); }
    else if s == 48 { Prefix48(b, p); }
    else { Prefix56(b, p); }
  }

  /** Each prefix adds its own byte's population to the one before it. */
  lemma PrefixAt(value: bv64, s: bv64)
    requires LaneShift(s)
    ensures Lane(PrefixesOf(value), s) == Plus(Prior(PrefixesOf(value), s), Pop8(Lane(value, s)))
  {
    hide Bytes, Nibbles, Pairs, Lane, Pop8, Spread, Narrow, Prior, Plus;
    NarrowBytes(Nibbles(Pairs(value)));
    BytesExact(value, s);
    StepAt(Bytes(Nibbles(Pairs(value))), PrefixesOf(value), s);
  }

  lemma PrefixesNarrow(value: bv64)
    ensures Small(PrefixesOf(value))
  {
    hide Bytes, Nibbles, Pairs, Small, Narrow, Spread;
    NarrowBytes(Nibbles(Pairs(value)));
    PrefixesSmall(Bytes(Nibbles(Pairs(value))));
  }

  lemma LastByte(s: bv64, r: bv64)
    requires LaneShift(s) && s <= r < 64
    ensures LaneShift(r & 0x38) && r & 0x38 <= r && r - (r & 0x38) < 8
    ensures r - s < 8 ==> s == r & 0x38
    ensures r - s >= 8 ==> LaneShift(s + 8) && s + 8 <= r && 64 - (s + 8) < 64 - s && s + 8 - 8 == s && s + 8 != 0
  {
  }

  /** From byte s on, the rank of r is the prefix before r's byte and that byte's bits below r. */
  lemma {:induction false} RankFromByte(value: bv64, s: bv64, r: bv64)
    requires LaneShift(s) && s <= r < 64
    ensures LaneShift(r & 0x38) && r & 0x38 <= r
    ensures RankFrom(Prior(PrefixesOf(value), s), value, s, r)
         == Plus(Prior(PrefixesOf(value), r & 0x38), Pop8(Below(Lane(value, r & 0x38), r - (r & 0x38))))
    decreases 64 - s
  {
    hide PrefixesOf, Pop8, Below, Lane, Plus, LaneShift;
    LastByte(s, r);
    if r - s >= 8 {
      PrefixAt(value, s);
      RankFromByte(value, s + 8, r);
    }
  }

  // ----- the selection

  lemma LaneSmall(p: bv64, s: bv64)
    requires Small(p) && LaneShift(s)
    ensures Lane(p, s) < 128
  {
  }

  lemma TopBitIs(value: bv64)
    ensures (value >> 63) & 1 == (Lane(value, 56) >> 7) & 1 && Lane(value, 56) <= 255
  {
  }

  lemma TopPop(x: bv64)
    requires x <= 255
    ensures Pop8(x) == Plus(Pop8(Below(x, 7)), (x >> 7) & 1)
  {
  }

  lemma OneBit(value: bv64)
    ensures (value >> 63) & 1 <= 1
  {
  }

  lemma PlusAssociates(x: bv64, y: bv64, z: bv64)
    requires x <= 255 && y <= 8 && z <= 1
    ensures Plus(Plus(x, y), z) == Plus(x, Plus(y, z))
  {
  }

  lemma TopByte(value: bv64, prior: bv64)
    requires prior <= 255
    ensures Plus(Plus(prior, Pop8(Below(Lane(value, 56), 7))), (value >> 63) & 1) == Plus(prior, Pop8(Lane(value, 56)))
  {
    hide Lane, Pop8, Below, Plus;
    TopBitIs(value);
    TopPop(Lane(value, 56));
    PopSmall(Below(Lane(value, 56), 7));
    OneBit(value);
    PlusAssociates(prior, Pop8(Below(Lane(value, 56), 7)), (value >> 63) & 1);
  }

  lemma PriorByte(p: bv64, s: bv64)
    requires LaneShift(s)
    ensures Prior(p, s) <= 255
  {
  }

  /** The last prefix is the word's population. */
  lemma PopulationIs(value: bv64)
    ensures Population(value) == Lane(PrefixesOf(value), 56) < 128
  {
    LastShift();
    PrefixesNarrow(value);
    LaneSmall(PrefixesOf(value), 56);
    hide PrefixesOf, Pop8, Below, Lane, Plus, Small;
    RankFromByte(value, 0, 63);
    PrefixAt(value, 56);
    PriorByte(PrefixesOf(value), 56);
    TopByte(value, Prior(PrefixesOf(value), 56));
  }

  /** Bit t of byte x is set with `rest` set bits below it. */
  predicate InByte(x: bv64, rest: bv64, t: bv64) {
    t < 8 && (x >> t) & 1 == 1 && Pop8(Below(x, t)) == rest
  }

  function Low4(x: bv64): bv64 {
    x & 15
  }

  function High4(x: bv64): bv64 {
    (x >> 4) & 15
  }

  lemma LowHalf(x: bv64, rest: bv64, lower: bv64)
    requires x <= 255 && lower == Pop4(Low4(x)) && rest < lower
    ensures InByte(x, rest, NibbleSelect(Low4(x), rest))
  {
    InNibble(Low4(x), rest);
    NibbleBelow(x, NibbleSelect(Low4(x), rest));
    hide NibbleSelect, Pop4, Pop8, Below;
  }

  lemma HighHalf(x: bv64, rest: bv64, lower: bv64)
    requires x <= 255 && lower == Pop4(Low4(x)) && rest >= lower && rest < Pop8(x)
    ensures InByte(x, rest, 4 + NibbleSelect(High4(x), rest - lower))
  {
    HighRest(x, rest);
    hide NibbleSelect, Pop4, Pop8, Below, High4, Low4, InByte;
    InNibble(High4(x), rest - lower);
    HighByte(x, NibbleSelect(High4(x), rest - lower), lower, rest - lower);
  }

  lemma HighRest(x: bv64, rest: bv64)
    requires x <= 255 && Pop4(Low4(x)) <= rest < Pop8(x)
    ensures rest - Pop4(Low4(x)) < Pop4(High4(x)) && High4(x) <= 15
  {
  }

  lemma HighByte(x: bv64, u: bv64, lower: bv64, left: bv64)
    requires x <= 255 && u < 4 && lower == Pop4(Low4(x))
    requires (High4(x) >> u) & 1 == 1 && Pop4(High4(x) & ((1 << u) - 1)) == left
    ensures InByte(x, lower + left, 4 + u)
  {
    NibbleBelow(x, u);
    hide Pop4, Pop8, Below;
  }

  lemma NibbleCount(value: bv64, s: bv64)
    requires LaneShift(s)
    ensures Nibble(Nibbles(Pairs(value)), s) == Pop4(Low4(Lane(value, s))) && Lane(value, s) <= 255
  {
    NibblesExact(value, s);
    LaneNibbles(value, s);
    LaneByte(value, s);
    hide Nibbles, Pairs, Nibble, Lane, Pop4;
  }

  /** Inside the byte at `shift`: nibble, pair, bit. */
  method SelectInByte(value: bv64, nibbles: bv64, shift: bv64, rest: bv64) returns (t: bv64)
    requires LaneShift(shift) && nibbles == Nibbles(Pairs(value)) && rest < Pop8(Lane(value, shift))
    ensures InByte(Lane(value, shift), rest, t)
  {
    hide Pop4, Pop8, Lane, Nibbles, Pairs, Nibble, NibbleSelect, InByte, Low4, High4;
    NibbleCount(value, shift);
    var lower := Nibble(nibbles, shift);
    if rest >= lower {
      HighHalf(Lane(value, shift), rest, lower);
      t := 4 + NibbleSelect(High4(Lane(value, shift)), rest - lower);
    } else {
      LowHalf(Lane(value, shift), rest, lower);
      t := NibbleSelect(Low4(Lane(value, shift)), rest);
    }
  }

  lemma LaneByte(value: bv64, s: bv64)
    requires LaneShift(s)
    ensures Lane(value, s) <= 255
  {
  }

  lemma LaneBit(value: bv64, s: bv64, t: bv64)
    requires LaneShift(s) && t < 8 && (Lane(value, s) >> t) & 1 == 1
    ensures BitSet(value, s + t)
  {
  }

  /** A bit found inside its byte, with the prefix before that byte, is the selected bit of the word. */
  lemma InWord(value: bv64, shift: bv64, rest: bv64, t: bv64, r: bv64)
    requires LaneShift(shift) && InByte(Lane(value, shift), rest, t) && r == shift + t
    ensures r < 64 && BitSet(value, r) && Rank(value, r) == Plus(Prior(PrefixesOf(value), shift), rest)
  {
    hide Lane, InByte, PrefixesOf, Plus, Below, Pop8, BitSet, Prior, Rank;
    ByteRest(Lane(value, shift), rest, t);
    LaneBit(value, shift, t);
    ByteOf(shift, t, r);
    RankAt(value, r, shift, t);
  }

  lemma RankAt(value: bv64, r: bv64, shift: bv64, t: bv64)
    requires r < 64 && LaneShift(shift) && r & 0x38 == shift && r - shift == t && t < 64
    ensures Rank(value, r) == Plus(Prior(PrefixesOf(value), shift), Pop8(Below(Lane(value, shift), t)))
  {
    hide Lane, PrefixesOf, Plus, Below, Pop8;
    RankFromByte(value, 0, r);
  }

  lemma ByteOf(shift: bv64, t: bv64, r: bv64)
    requires LaneShift(shift) && t < 8 && r == shift + t
    ensures r < 64 && r & 0x38 == shift && r - shift == t
  {
  }

  lemma ByteRest(x: bv64, rest: bv64, t: bv64)
    requires InByte(x, rest, t)
    ensures t < 8 && (x >> t) & 1 == 1 && Pop8(Below(x, t)) == rest
  {
  }

  /** What is left of an ordinal inside a byte. */
  lemma Rest(prior: bv64, count: bv64, prefix: bv64, ordinal: bv64, rest: bv64)
    requires prefix == Plus(prior, count) && count <= 8 && ordinal < 128 && rest == Minus(ordinal, prior)
    requires prior < ordinal + 1 <= prefix
    ensures rest < count && Plus(prior, rest) == ordinal
  {
    SmallPrior(prior, ordinal);
    hide Plus, Minus;
    RestBack(prior, ordinal);
    RestBelow(prior, count, ordinal);
  }

  lemma SmallPrior(prior: bv64, ordinal: bv64)
    requires ordinal < 128 && prior < ordinal + 1
    ensures prior < 128
  {
  }

  lemma RestBack(prior: bv64, ordinal: bv64)
    requires prior < 128 && ordinal < 128
    ensures Plus(prior, Minus(ordinal, prior)) == ordinal
  {
  }

  lemma RestBelow(prior: bv64, count: bv64, ordinal: bv64)
    requires count <= 8 && ordinal < 128 && prior < ordinal + 1 <= Plus(prior, count)
    ensures Minus(ordinal, prior) < count
  {
  }

  lemma RestInByte(value: bv64, shift: bv64, ordinal: bv64, rest: bv64)
    requires LaneShift(shift) && ordinal < 128 && rest == Minus(ordinal, Prior(PrefixesOf(value), shift))
    requires Prior(PrefixesOf(value), shift) < ordinal + 1 <= Lane(PrefixesOf(value), shift)
    ensures rest < Pop8(Lane(value, shift)) && Plus(Prior(PrefixesOf(value), shift), rest) == ordinal
  {
    hide PrefixesOf, Pop8, Lane, Plus, Prior, Minus;
    PrefixAt(value, shift);
    PopSmall(Lane(value, shift));
    Rest(Prior(PrefixesOf(value), shift), Pop8(Lane(value, shift)), Lane(PrefixesOf(value), shift), ordinal, rest);
  }

  lemma PopSmall(x: bv64)
    ensures Pop8(x) <= 8
  {
  }

  /** `select_word`: for every word and every ordinal below its population, exactly that set bit. */
  method SelectWord(value: bv64, ordinal: bv64) returns (r: bv64)
    requires ordinal < Population(value)
    ensures IsSelected(value, ordinal, r)
  {
    hide Population, Lane, Pop8, Plus, Minus, Small, Rank, BitSet, InByte, Bytes, Nibbles, Pairs, Spread, Prior;
    PopulationIs(value);
    PrefixesNarrow(value);
    var nibbles := Nibbles(Pairs(value));
    var prefixes := Spread(Bytes(nibbles));
    var shift := FindByte(prefixes, ordinal + 1);
    var rest := Minus(ordinal, Prior(prefixes, shift));
    RestInByte(value, shift, ordinal, rest);
    var t := SelectInByte(value, nibbles, shift, rest);
    r := shift + t;
    InWord(value, shift, rest, t, r);
  }
}
