/**
 Little-endian fields of a firmware report, and their decomposition into bytes and
 bits. Shifts and masks on non-negative integers are written as divisions and
 remainders by powers of two.
 */
module LittleEndian {
  import opened Wrappers

  /** The base-256 sum of some bytes, least significant first. */
  function Sum(b: seq<Byte>): nat {
    if b == [] then 0 else b[0] + 256 * Sum(b[1..])
  }

  function BitSet(value: nat, bit: nat): bool {
    value / Pow2(bit) % 2 == 1
  }

  function ByteOf(value: nat, index: nat): nat {
    value / Pow2(index * 8) % 256
  }

  /** readUintLE, from the most significant byte down. */
  method ReadUintLE(bytes: seq<Byte>, offset: nat, width: nat) returns (value: nat)
    requires offset + width <= |bytes|
    ensures value == Sum(bytes[offset..offset + width])
  {
    value := 0;
    var index: int := width - 1;
    while index >= 0
      invariant -1 <= index < width
      invariant value == Sum(bytes[offset + index + 1..offset + width])
    {
      assert bytes[offset + index..offset + width][1..] == bytes[offset + index + 1..offset + width];
      value := value * 256 + bytes[offset + index];
      index := index - 1;
    }
  }

  lemma SumTail(b: seq<Byte>)
    requires b != []
    ensures Sum(b) / 256 == Sum(b[1..]) && Sum(b) % 256 == b[0]
  {
  }

  lemma DivideTwice(value: nat, d: nat, p: nat)
    requires d > 0 && p > 0
    ensures d * p > 0 && value / (d * p) == value / d / p
  {
    var q, s := value / d, value % d;
    var r := q % p;
    TimesAtLeast(d, p);
    QuotientIsUnique(q, p);
    QuotientIsUnique(value, d);
    Distribute(d, p * (q / p), r);
    Regroup(d, p, q / p);
    RemainderBelow(d, p, r, s);
    QuotientIs(value, d * p, q / p, d * r + s);
  }

  lemma QuotientIsUnique(value: nat, d: nat)
    requires d > 0
    ensures value == d * (value / d) + value % d
  {
  }

  lemma Distribute(d: nat, x: nat, y: nat)
    ensures d * (x + y) == d * x + d * y
  {
  }

  lemma Regroup(d: nat, p: nat, n: nat)
    ensures d * (p * n) == (d * p) * n
  {
  }

  lemma RemainderBelow(d: nat, p: nat, r: nat, s: nat)
    requires r < p && s < d
    ensures d * r + s < d * p
  {
    Distribute(d, r, p - r);
    TimesAtLeast(d, p - r);
  }

  lemma {:induction false} TimesAtLeast(d: nat, n: nat)
    requires n >= 1
    ensures d * n >= d
  {
    if n > 1 {
      TimesAtLeast(d, n - 1);
      assert d * n == d * (n - 1) + d;
    }
  }

  lemma QuotientIs(value: nat, d: nat, q: nat, rest: nat)
    requires d > 0 && value == d * q + rest && rest < d
    ensures value / d == q
  {
    var k, r := value / d, value % d;
    QuotientIsUnique(value, d);
    if k < q {
      Distribute(d, k, q - k);
      TimesAtLeast(d, q - k);
    } else if k > q {
      Distribute(d, q, k - q);
      TimesAtLeast(d, k - q);
    }
  }

  lemma EightBits(n: nat)
    requires n >= 8
    ensures Pow2(n) == 256 * Pow2(n - 8)
  {
    assert Pow2(n) == 4 * Pow2(n - 2) == 16 * Pow2(n - 4);
    assert Pow2(n - 4) == 4 * Pow2(n - 6) == 16 * Pow2(n - 8);
  }

  /** Shifting right by whole bytes drops bytes. */
  lemma {:induction false} ShiftDropsBytes(b: seq<Byte>, index: nat)
    requires index <= |b|
    ensures Sum(b) / Pow2(index * 8) == Sum(b[index..])
  {
    if index == 0 {
      assert b[0..] == b;
    } else {
      SumTail(b);
      ShiftDropsBytes(b[1..], index - 1);
      assert b[1..][index - 1..] == b[index..];
      EightBits(index * 8);
      DivideTwice(Sum(b), 256, Pow2(index * 8 - 8));
    }
  }

  /** Byte i of a little-endian read is byte i of what was read. */
  lemma ByteOfSum(b: seq<Byte>, index: nat)
    requires index < |b|
    ensures ByteOf(Sum(b), index) == b[index]
  {
    ShiftDropsBytes(b, index);
    SumTail(b[index..]);
  }

  lemma BitOfHalf(value: nat, bit: nat)
    requires bit > 0
    ensures BitSet(value, bit) == BitSet(value / 2, bit - 1)
  {
    DivideTwice(value, 2, Pow2(bit - 1));
  }

  function Doubled(value: nat, times: nat): nat {
    if times == 0 then value else 2 * Doubled(value, times - 1)
  }

  lemma HalvesOfSum(low: nat, m: nat)
    ensures (low + 2 * m) % 2 == low % 2 && (low + 2 * m) / 2 == low / 2 + m
  {
  }

  lemma LowestBit(value: nat)
    ensures BitSet(value, 0) <==> value % 2 == 1
  {
    assert Pow2(0) == 1;
  }

  /** Whatever is added above the low k bits leaves them alone. */
  lemma {:induction false} LowBits(low: nat, above: nat, k: nat, bit: nat)
    requires bit < k
    ensures BitSet(low + Doubled(above, k), bit) == BitSet(low, bit)
  {
    hide BitSet;
    var m := Doubled(above, k - 1);
    HalvesOfSum(low, m);
    if bit == 0 {
      LowestBit(low + 2 * m);
      LowestBit(low);
    } else {
      BitOfHalf(low + 2 * m, bit);
      BitOfHalf(low, bit);
      LowBits(low / 2, above, k - 1, bit - 1);
    }
  }

  lemma ByteAbove(high: nat)
    ensures Doubled(high, 8) == 256 * high
  {
    assert Doubled(high, 1) == 2 * high && Doubled(high, 2) == 4 * high && Doubled(high, 3) == 8 * high;
    assert Doubled(high, 4) == 16 * high && Doubled(high, 5) == 32 * high && Doubled(high, 6) == 64 * high;
    assert Doubled(high, 7) == 128 * high;
  }

  /** Bit n of a little-endian read is bit n mod 8 of byte n div 8. */
  lemma {:induction false} BitOfSum(b: seq<Byte>, bit: nat)
    requires bit < 8 * |b|
    ensures BitSet(Sum(b), bit) == BitSet(b[bit / 8], bit % 8)
  {
    if bit < 8 {
      hide BitSet;
      ByteAbove(Sum(b[1..]));
      LowBits(b[0], Sum(b[1..]), 8, bit);
    } else {
      SumTail(b);
      EightBits(bit);
      DivideTwice(Sum(b), 256, Pow2(bit - 8));
      BitOfSum(b[1..], bit - 8);
      assert (bit - 8) / 8 == bit / 8 - 1 && (bit - 8) % 8 == bit % 8;
    }
  }
}
