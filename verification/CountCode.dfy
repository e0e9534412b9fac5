/** Unsigned LEB128 counts (write_count and read_count of profile.h; section 7.6 of DWARF 5), as bytes. */
module CountCodes {
  import opened Options

  const TWO64: nat := 0x1_0000_0000_0000_0000

  /** Seven bits a byte, lowest first, the high bit set on all but the last. */
  function Encode(n: nat): (b: seq<nat>)
    ensures |b| > 0
  {
    if n < 128 then [n] else [n % 128 + 128] + Encode(n / 128)
  }

  lemma {:induction false} EncodeBytes(n: nat, i: nat)
    requires i < |Encode(n)|
    ensures Encode(n)[i] < 256
  {
    if n >= 128 && i > 0 { EncodeBytes(n / 128, i - 1); }
  }

  /** What a code is: every byte but the last is marked, the last is not and is no padding, and the low seven bits
      are the digits of the number, lowest first. */
  lemma {:induction false} EncodeIs(n: nat)
    ensures var b := Encode(n);
            && Value(b) == n && b[|b| - 1] < 128 && (|b| > 1 ==> b[|b| - 1] > 0)
            && forall i | 0 <= i < |b| - 1 :: 128 <= b[i] < 256
  {
    if n >= 128 {
      EncodeIs(n / 128);
      assert Encode(n)[1..] == Encode(n / 128);
    }
  }

  /** A section holds `part` at a position. */
  predicate HasAt(data: seq<nat>, at: nat, part: seq<nat>) {
    at + |part| <= |data| && data[at..at + |part|] == part
  }

  method WriteCount(n: nat) returns (bytes: seq<nat>)
    ensures bytes == Encode(n)
  {
    var v := n;
    bytes := [];
    while v >= 128
      invariant bytes + Encode(v) == Encode(n)
    {
      bytes := bytes + [v % 128 + 128];
      v := v / 128;
    }
    bytes := bytes + [v];
  }

  /** m << 7i. */
  function Scale(m: nat, i: nat): nat {
    if i == 0 then m else 128 * Scale(m, i - 1)
  }

  /** The number formed by the low seven bits of each byte. */
  function Value(bytes: seq<nat>): nat {
    if bytes == [] then 0 else bytes[0] % 128 + 128 * Value(bytes[1..])
  }

  predicate Continues(bytes: seq<nat>) {
    forall i | 0 <= i < |bytes| :: 128 <= bytes[i] < 256
  }

  lemma {:induction false} ValueNext(bytes: seq<nat>, p: nat)
    ensures Value(bytes + [p]) == Value(bytes) + Scale(p % 128, |bytes|)
  {
    if bytes == [] {
      assert Value([p]) == p % 128 + 128 * Value([p][1..]);
    } else {
      assert (bytes + [p])[1..] == bytes[1..] + [p];
      ValueNext(bytes[1..], p);
    }
  }

  /** Continuation bytes are the low digits of whatever follows them. */
  lemma {:induction false} EncodeDigits(bytes: seq<nat>, m: nat)
    requires Continues(bytes) && (m > 0 || bytes == [])
    ensures Encode(Value(bytes) + Scale(m, |bytes|)) == bytes + Encode(m)
    ensures bytes != [] ==> Value(bytes) + Scale(m, |bytes|) >= 128
  {
    if bytes == [] {
      assert [] + Encode(m) == Encode(m);
    } else {
      var rest := Value(bytes[1..]) + Scale(m, |bytes| - 1);
      EncodeDigits(bytes[1..], m);
      assert rest > 0;
      var n := Value(bytes) + Scale(m, |bytes|);
      assert n == bytes[0] % 128 + 128 * rest;
      assert n / 128 == rest && n % 128 + 128 == bytes[0];
      HeadFirst(bytes, Encode(m));
    }
  }

  /** And an encoding that starts with them has only those low digits. */
  lemma {:induction false} SplitDigits(bytes: seq<nat>, n: nat) returns (m: nat)
    requires Continues(bytes) && bytes <= Encode(n)
    ensures n == Value(bytes) + Scale(m, |bytes|) && Encode(n) == bytes + Encode(m) && (bytes != [] ==> m > 0)
  {
    if bytes == [] {
      m := n;
      assert [] + Encode(n) == Encode(n);
    } else {
      DropDigit(bytes, n);
      m := SplitDigits(bytes[1..], n / 128);
      hide Value, Scale, Encode;
      AddDigit(bytes, n, n / 128, m);
      if |bytes| == 1 { OneDigit(bytes, m); }
    }
  }

  lemma DropDigit(bytes: seq<nat>, n: nat)
    requires Continues(bytes) && bytes != [] && bytes <= Encode(n)
    ensures n >= 128 && n == bytes[0] % 128 + 128 * (n / 128) && Encode(n) == [bytes[0]] + Encode(n / 128)
    ensures Continues(bytes[1..]) && bytes[1..] <= Encode(n / 128)
  {
    assert bytes[0] == Encode(n)[0];
    assert Encode(n)[1..] == Encode(n / 128);
    assert bytes[1..] == Encode(n)[1..|bytes|];
  }

  lemma AddDigit(bytes: seq<nat>, n: nat, rest: nat, m: nat)
    requires bytes != [] && n == bytes[0] % 128 + 128 * rest && Encode(n) == [bytes[0]] + Encode(rest)
    requires rest == Value(bytes[1..]) + Scale(m, |bytes| - 1) && Encode(rest) == bytes[1..] + Encode(m)
    ensures n == Value(bytes) + Scale(m, |bytes|) && Encode(n) == bytes + Encode(m)
  {
    assert Value(bytes) == bytes[0] % 128 + 128 * Value(bytes[1..]);
    assert Scale(m, |bytes|) == 128 * Scale(m, |bytes| - 1);
    hide Value, Scale, Encode;
    HeadFirst(bytes, Encode(m));
  }

  lemma HeadFirst(bytes: seq<nat>, more: seq<nat>)
    requires bytes != []
    ensures [bytes[0]] + (bytes[1..] + more) == bytes + more
  {
    assert bytes == [bytes[0]] + bytes[1..];
  }

  lemma OneDigit(bytes: seq<nat>, m: nat)
    requires |bytes| == 1
    ensures Value(bytes[1..]) + Scale(m, 0) == m
  {
  }

  lemma {:induction false} ScaleMonotone(a: nat, b: nat, i: nat)
    requires a <= b
    ensures Scale(a, i) <= Scale(b, i)
  {
    if i > 0 { ScaleMonotone(a, b, i - 1); }
  }

  lemma ScaleNine()
    ensures Scale(1, 9) == 0x8000_0000_0000_0000 && Scale(2, 9) == TWO64
  {
    assert Scale(1, 1) == 128 && Scale(2, 1) == 256;
    assert Scale(1, 2) == 0x4000 && Scale(2, 2) == 0x8000;
    assert Scale(1, 3) == 0x20_0000 && Scale(2, 3) == 0x40_0000;
    assert Scale(1, 4) == 0x1000_0000 && Scale(2, 4) == 0x2000_0000;
    assert Scale(1, 5) == 0x8_0000_0000 && Scale(2, 5) == 0x10_0000_0000;
    assert Scale(1, 6) == 0x400_0000_0000 && Scale(2, 6) == 0x800_0000_0000;
    assert Scale(1, 7) == 0x2_0000_0000_0000 && Scale(2, 7) == 0x4_0000_0000_0000;
    assert Scale(1, 8) == 0x100_0000_0000_0000 && Scale(2, 8) == 0x200_0000_0000_0000;
  }

  /** The digits read so far stay below the next digit's weight. */
  lemma {:induction false} ValueBelow(bytes: seq<nat>)
    ensures Value(bytes) < Scale(1, |bytes|)
  {
    if bytes != [] { ValueBelow(bytes[1..]); }
  }

  lemma {:induction false} ScaleShort(i: nat, j: nat)
    requires i <= j
    ensures 0 < Scale(1, i) <= Scale(1, j)
    decreases j
  {
    if i < j { ScaleShort(i, j - 1); } else if i > 0 { ScaleShort(i - 1, j - 1); }
  }

  datatype Count = Count(value: nat, next: nat)

  /** One number below 2^64 stands here in its only encoding. */
  ghost predicate CountAt(data: seq<nat>, at: nat, count: Count) {
    count.value < TWO64 && HasAt(data, at, Encode(count.value)) && count.next == at + |Encode(count.value)|
  }

  lemma ContinuesAt(data: seq<nat>, start: nat, at: nat, i: nat)
    requires start <= i < at <= |data| && Continues(data[start..at])
    ensures data[i] >= 128
  {
    assert data[i] == data[start..at][i - start];
  }

  lemma LastByte(data: seq<nat>, start: nat, n: nat)
    requires HasAt(data, start, Encode(n))
    ensures data[start + |Encode(n)| - 1] < 128
  {
    ShortEnds(n);
    var code := Encode(n);
    assert data[start + |code| - 1] == data[start..start + |code|][|code| - 1];
  }

  /** If a number stands at `start`, the continuation bytes after it are its low digits. */
  lemma DigitsHere(data: seq<nat>, start: nat, at: nat, count: Count) returns (m: nat)
    requires start <= at <= |data| && Continues(data[start..at]) && CountAt(data, start, count)
    ensures at < |data| && count.value == Value(data[start..at]) + Scale(m, at - start) && (at > start ==> m > 0)
    ensures data[at] == Encode(m)[0]
  {
    var code, bytes := Encode(count.value), data[start..at];
    LastByte(data, start, count.value);
    if |code| <= |bytes| { ContinuesAt(data, start, at, start + |code| - 1); }
    assert bytes == code[..|bytes|] by { assert data[start..start + |code|][..|bytes|] == bytes; }
    m := SplitDigits(bytes, count.value);
    assert data[at] == data[start..start + |code|][at - start] == code[at - start];
  }

  lemma {:induction false} ShortEnds(n: nat)
    ensures Encode(n)[|Encode(n)| - 1] < 128
  {
    if n >= 128 { ShortEnds(n / 128); }
  }

  /** A final byte completes the number. */
  lemma CountEnds(data: seq<nat>, start: nat, at: nat)
    requires start <= at < |data| && Continues(data[start..at]) && data[at] < 128 && (at > start ==> data[at] > 0)
    requires at <= start + 9 && (at == start + 9 ==> data[at] <= 1)
    ensures CountAt(data, start, Count(Value(data[start..at]) + Scale(data[at], at - start), at + 1))
  {
    var bytes, part := data[start..at], data[at];
    Small(bytes, part, at - start);
    EncodeDigits(bytes, part);
    hide Value, Scale, Continues, Encode;
    assert data[start..at + 1] == bytes + [part];
    OneByte(part);
  }

  lemma OneByte(part: nat)
    requires part < 128
    ensures Encode(part) == [part]
  {
  }

  /** `read_count`: accepts exactly the canonical encodings of numbers below 2^64; anything truncated, overlong or
      overflowing is refused. */
  method ReadCount(data: seq<nat>, start: nat) returns (result: Option<Count>)
    requires forall i | 0 <= i < |data| :: data[i] < 256
    ensures result.Some? ==> CountAt(data, start, result.value)
    ensures result.None? ==> forall count {:trigger CountAt(data, start, count)} :: !CountAt(data, start, count)
  {
    if start > |data| { return None; }
    var at, value: nat := start, 0;
    for digit := 0 to 10
      invariant at == start + digit <= |data| && Continues(data[start..at]) && value == Value(data[start..at])
      invariant digit == 10 ==> data[start + 9] < 2
    {
      hide Continues, Value, Scale, CountAt, Encode, HasAt;
      if at >= |data| {
        forall count | CountAt(data, start, count) ensures false { var m := DigitsHere(data, start, at, count); }
        return None;
      }
      var part := data[at];
      if digit == 9 && part > 1 {
        Overflows(data, start, at);
        return None;
      }
      NextDigit(data, start, at);
      value := value + Scale(part % 128, digit);
      if part < 128 {
        if digit > 0 && part == 0 {
          Padded(data, start, at);
          return None;
        }
        CountEnds(data, start, at);
        return Some(Count(value, at + 1));
      }
      at := at + 1;
    }
    TenBytes(data, start);
    assert false;
  }

  /** Ten continuation bytes would overflow. */
  lemma TenBytes(data: seq<nat>, start: nat)
    requires start + 10 <= |data| && Continues(data[start..start + 10])
    ensures data[start + 9] >= 128
  {
    ContinuesAt(data, start, start + 10, start + 9);
  }

  lemma NextDigit(data: seq<nat>, start: nat, at: nat)
    requires start <= at < |data| && Continues(data[start..at])
    ensures Value(data[start..at + 1]) == Value(data[start..at]) + Scale(data[at] % 128, at - start)
    ensures 128 <= data[at] < 256 ==> Continues(data[start..at + 1])
  {
    ValueNext(data[start..at], data[at]);
    assert data[start..at + 1] == data[start..at] + [data[at]];
  }

  lemma Overflows(data: seq<nat>, start: nat, at: nat)
    requires at == start + 9 < |data| && Continues(data[start..at]) && data[at] > 1
    ensures forall count {:trigger CountAt(data, start, count)} :: !CountAt(data, start, count)
  {
    forall count | CountAt(data, start, count) ensures false {
      var m := DigitsHere(data, start, at, count);
      ScaleMonotone(2, m, 9);
      ScaleNine();
    }
  }

  lemma Padded(data: seq<nat>, start: nat, at: nat)
    requires start < at < |data| && Continues(data[start..at]) && data[at] == 0
    ensures forall count {:trigger CountAt(data, start, count)} :: !CountAt(data, start, count)
  {
    forall count | CountAt(data, start, count) ensures false { var m := DigitsHere(data, start, at, count); }
  }

  lemma Small(bytes: seq<nat>, part: nat, digit: nat)
    requires digit == |bytes| <= 9 && part < 128 && (digit == 9 ==> part <= 1)
    ensures Value(bytes) + Scale(part, digit) < TWO64
  {
    ValueBelow(bytes);
    ScaleNine();
    if digit == 9 {
      ScaleMonotone(part, 1, 9);
    } else {
      assert bytes + [part] != [];
      ValueNext(bytes, part);
      ValueBelow(bytes + [part]);
      ScaleShort(digit + 1, 9);
    }
  }
}
