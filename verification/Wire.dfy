/** Wire primitives of the Protocol Buffers encoding: base 128 varints, length-delimited blocks,
    sign-extended int32 values, and the closed size formula of a varint. */
module Wire {
  type Byte = b: int | 0 <= b < 256 witness 0
  type Bytes = seq<Byte>

  const TWO31: int := 0x8000_0000
  const TWO32: int := 0x1_0000_0000
  const TWO64: int := 0x1_0000_0000_0000_0000
  const MAX_VARINT_BYTES: nat := 10

  datatype Read<T> = Got(value: T, rest: Bytes) | Short

  // ---------------------------------------------------------------- varints

  /** Seven bits a byte, least significant first; every byte but the last has its high bit set. */
  function Varint(n: nat): (r: Bytes)
    ensures |r| >= 1
  {
    if n < 128 then [n] else [n % 128 + 128] + Varint(n / 128)
  }

  /** The number whose base-128 digits are the low seven bits of these bytes, least significant first. */
  function Digits(s: Bytes): (n: nat) {
    if s == [] then 0 else s[0] % 128 + 128 * Digits(s[1..])
  }

  /** The one shortest sequence of digits for n, in which the high bit says that another byte follows. */
  lemma {:induction false} VarintMeaning(n: nat)
    ensures var r := Varint(n);
      && Digits(r) == n
      && (forall i :: 0 <= i < |r| ==> (r[i] >= 128 <==> i < |r| - 1))
      && (|r| > 1 ==> r[|r| - 1] != 0)
  {
    if n < 128 {
      assert [n][1..] == [];
    } else {
      VarintMeaning(n / 128);
      var r, rest := Varint(n), Varint(n / 128);
      assert r == [n % 128 + 128] + rest && r[1..] == rest;
      assert forall i :: 1 <= i < |r| ==> r[i] == rest[i - 1];
    }
  }

  /** Reads base-128 digits until a byte without the high bit; gives up after `limit` bytes. */
  function ReadDigits(input: Bytes, limit: nat): (r: Read<nat>)
    ensures r.Got? ==> |r.rest| < |input|
    decreases |input|
  {
    if limit == 0 || input == [] then Short
    else if input[0] < 128 then Got(input[0], input[1..])
    else
      match ReadDigits(input[1..], limit - 1)
      case Short => Short
      case Got(high, rest) => Got(input[0] - 128 + 128 * high, rest)
  }

  /** A varint of at most ten bytes; bits beyond the 64th are dropped. */
  function ReadVarint(input: Bytes): (r: Read<nat>)
    ensures r.Got? ==> |r.rest| < |input| && r.value < TWO64
  {
    match ReadDigits(input, MAX_VARINT_BYTES)
    case Short => Short
    case Got(v, rest) => Got(v % TWO64, rest)
  }

  function Power128(k: nat): (r: nat)
    ensures r >= 1
  {
    if k == 0 then 1 else 128 * Power128(k - 1)
  }

  lemma {:induction false} DigitsInverse(n: nat, tail: Bytes, limit: nat)
    requires limit >= 1 && n < Power128(limit)
    ensures ReadDigits(Varint(n) + tail, limit) == Got(n, tail)
    decreases limit
  {
    var bytes := Varint(n) + tail;
    if n < 128 {
      assert bytes[1..] == tail;
    } else {
      assert Power128(1) == 128 * Power128(0);
      assert n / 128 < Power128(limit - 1);
      DigitsInverse(n / 128, tail, limit - 1);
      assert bytes[1..] == Varint(n / 128) + tail;
    }
  }

  lemma TenDigitsSuffice()
    ensures TWO64 <= Power128(MAX_VARINT_BYTES)
  {
    assert Power128(2) == 128 * Power128(1) && Power128(1) == 128 * Power128(0);
    assert Power128(4) == 128 * Power128(3) && Power128(3) == 128 * Power128(2);
    assert Power128(6) == 128 * Power128(5) && Power128(5) == 128 * Power128(4);
    assert Power128(8) == 128 * Power128(7) && Power128(7) == 128 * Power128(6);
    assert Power128(10) == 128 * Power128(9) && Power128(9) == 128 * Power128(8);
  }

  /** Reading a varint gives back every 64-bit value and stops exactly at its end. */
  lemma VarintInverse(n: nat, tail: Bytes)
    requires n < TWO64
    ensures ReadVarint(Varint(n) + tail) == Got(n, tail)
  {
    var limit := MAX_VARINT_BYTES;
    assert n < Power128(limit) by { TenDigitsSuffice(); }
    DigitsInverse(n, tail, limit);
    ReadWhole(Varint(n) + tail, n, tail);
  }

  lemma ReadWhole(input: Bytes, n: nat, rest: Bytes)
    requires n < TWO64 && ReadDigits(input, MAX_VARINT_BYTES) == Got(n, rest)
    ensures ReadVarint(input) == Got(n, rest)
  {
    assert n % TWO64 == n;
  }

  /** The first n bytes are a varint: all but the last have the high bit. */
  ghost predicate EndsAt(input: Bytes, n: nat) {
    1 <= n <= |input| && input[n - 1] < 128 && forall i :: 0 <= i < n - 1 ==> input[i] >= 128
  }

  lemma {:induction false} DigitsReadExactly(input: Bytes, limit: nat, n: nat)
    ensures EndsAt(input, n) && n <= limit ==> ReadDigits(input, limit) == Got(Digits(input[..n]), input[n..])
    ensures (forall m: nat :: EndsAt(input, m) ==> m > limit) ==> ReadDigits(input, limit) == Short
    decreases limit
  {
    if limit > 0 && input != [] {
      var rest := input[1..];
      DigitsReadExactly(rest, limit - 1, if n > 0 then n - 1 else 0);
      if EndsAt(input, n) {
        assert input[..n][1..] == rest[..n - 1];
        assert n > 1 ==> EndsAt(rest, n - 1) && rest[n - 1..] == input[n..];
        assert Digits([]) == 0;
      }
      if input[0] < 128 {
        assert EndsAt(input, 1);
      } else {
        forall m: nat | EndsAt(rest, m) ensures EndsAt(input, m + 1) {
          assert forall i :: 1 <= i < m ==> input[i] == rest[i - 1];
        }
      }
    }
  }

  /** The low 64 bits of the digits are read, and what is left is left; without an end within ten bytes nothing is. */
  lemma ReadExactly(input: Bytes, n: nat)
    ensures EndsAt(input, n) && n <= 10 ==>
              ReadVarint(input) == Got(Digits(input[..n]) % 0x1_0000_0000_0000_0000, input[n..])
    ensures (forall m: nat :: EndsAt(input, m) ==> m > 10) ==> ReadVarint(input) == Short
  {
    DigitsReadExactly(input, 10, n);
  }

  /** What is read does not depend on what follows. */
  lemma {:induction false} DigitsExtend(x: Bytes, y: Bytes, limit: nat)
    requires ReadDigits(x, limit).Got?
    ensures ReadDigits(x + y, limit) == Got(ReadDigits(x, limit).value, ReadDigits(x, limit).rest + y)
    decreases limit
  {
    assert (x + y)[1..] == x[1..] + y;
    if x[0] >= 128 {
      DigitsExtend(x[1..], y, limit - 1);
    }
  }

  // ---------------------------------------------------------------- int32 as a varint

  /** An int32 is written as 64 bits, sign-extended: a negative one takes ten bytes. */
  function SignExtend(i: int): (r: nat)
    ensures r < TWO64
    ensures -TWO31 <= i < TWO31 ==> r == if i < 0 then TWO64 + i else i
  {
    i % TWO64
  }

  /** The low 32 bits, as a signed number. */
  function ToInt32(v: nat): (i: int)
    ensures -TWO31 <= i < TWO31 && (v - i) % TWO32 == 0
  {
    var low := v % TWO32;
    if low >= TWO31 then low - TWO32 else low
  }

  lemma Int32Inverse(i: int)
    requires -TWO31 <= i < TWO31
    ensures ToInt32(SignExtend(i)) == i
  {
    if i < 0 {
      assert SignExtend(i) == (TWO32 - 1) * TWO32 + (TWO32 + i);
      assert SignExtend(i) % TWO32 == TWO32 + i;
    }
  }

  // ---------------------------------------------------------------- blocks

  function Block(data: Bytes): (r: Bytes) {
    Varint(|data|) + data
  }

  function Take(input: Bytes, n: nat): (r: Read<Bytes>)
    ensures r.Got? ==> |r.rest| <= |input| && |r.value| == n
  {
    if n <= |input| then Got(input[..n], input[n..]) else Short
  }

  /** A length is 32 bits wide and refused when negative as an int, or longer than what is left. */
  function ReadBlock(input: Bytes): (r: Read<Bytes>)
    ensures r.Got? ==> |r.rest| < |input| && |r.value| < TWO31
  {
    match ReadVarint(input)
    case Short => Short
    case Got(v, rest) => if v % TWO32 < TWO31 then Take(rest, v % TWO32) else Short
  }

  /** A block is its length, as an int32 that is not negative, and as many bytes as that says. */
  lemma BlockReadExactly(input: Bytes)
    requires ReadVarint(input).Got?
    ensures var n, rest := ToInt32(ReadVarint(input).value), ReadVarint(input).rest;
      ReadBlock(input) == if 0 <= n <= |rest| then Got(rest[..n], rest[n..]) else Short
  {
  }

  lemma BlockInverse(data: Bytes, tail: Bytes)
    requires |data| < TWO31
    ensures ReadBlock(Block(data) + tail) == Got(data, tail)
  {
    VarintInverse(|data|, data + tail);
    assert Block(data) + tail == Varint(|data|) + (data + tail);
  }

  lemma VarintExtend(x: Bytes, y: Bytes)
    requires ReadVarint(x).Got?
    ensures ReadVarint(x + y) == Got(ReadVarint(x).value, ReadVarint(x).rest + y)
  {
    DigitsExtend(x, y, MAX_VARINT_BYTES);
  }

  lemma TakeExtend(x: Bytes, y: Bytes, n: nat)
    requires Take(x, n).Got?
    ensures Take(x + y, n) == Got(Take(x, n).value, Take(x, n).rest + y)
  {
    assert (x + y)[..n] == x[..n];
    assert (x + y)[n..] == x[n..] + y;
  }

  lemma BlockExtend(x: Bytes, y: Bytes)
    requires ReadBlock(x).Got?
    ensures ReadBlock(x + y) == Got(ReadBlock(x).value, ReadBlock(x).rest + y)
  {
    VarintExtend(x, y);
    TakeExtend(ReadVarint(x).rest, y, ReadVarint(x).value % TWO32);
  }

  // ---------------------------------------------------------------- sizes

  function Log2(n: nat): (r: nat)
    requires n >= 1
  {
    if n < 2 then 0 else 1 + Log2(n / 2)
  }

  /** The size of a varint without writing it: nine bytes per 64 bits of magnitude, rounded. */
  function VarintSize(n: nat): (r: nat) {
    (Log2(if n == 0 then 1 else n) * 9 + 73) / 64
  }

  lemma Log2Shift(n: nat)
    requires n >= 128
    ensures Log2(n) == 7 + Log2(n / 128)
  {
    assert Log2(n) == 1 + Log2(n / 2) && n / 2 / 2 == n / 4;
    assert Log2(n / 2) == 1 + Log2(n / 4) && n / 4 / 2 == n / 8;
    assert Log2(n / 4) == 1 + Log2(n / 8) && n / 8 / 2 == n / 16;
    assert Log2(n / 8) == 1 + Log2(n / 16) && n / 16 / 2 == n / 32;
    assert Log2(n / 16) == 1 + Log2(n / 32) && n / 32 / 2 == n / 64;
    assert Log2(n / 32) == 1 + Log2(n / 64) && n / 64 / 2 == n / 128;
    assert Log2(n / 64) == 1 + Log2(n / 128);
  }

  lemma {:induction false} Log2Below(n: nat, k: nat, bound: nat)
    requires n >= 1 && n < bound && bound == Power2(k)
    ensures Log2(n) < k
    decreases k
  {
    if n >= 2 {
      assert n / 2 < Power2(k - 1);
      Log2Below(n / 2, k - 1, Power2(k - 1));
    }
  }

  function Power2(k: nat): (r: nat)
    ensures r >= 1
  {
    if k == 0 then 1 else 2 * Power2(k - 1)
  }

  lemma {:induction false} Power2Split(j: nat, k: nat)
    ensures Power2(j + k) == Power2(j) * Power2(k)
    decreases j
  {
    if j > 0 {
      Power2Split(j - 1, k);
      assert Power2(j + k) == 2 * Power2(j - 1 + k);
    }
  }

  lemma Power64()
    ensures Power2(64) == TWO64
  {
    assert Power2(4) == 16 by { assert Power2(2) == 4 && Power2(3) == 8; }
    Power2Split(4, 4);
    Power2Split(8, 8);
    Power2Split(16, 16);
    Power2Split(32, 32);
  }

  lemma {:induction false} DigitCount(n: nat)
    ensures |Varint(n)| == Log2(if n == 0 then 1 else n) / 7 + 1
  {
    if n >= 128 {
      DigitCount(n / 128);
      Log2Shift(n);
    } else if n > 0 {
      assert Power2(7) == 128 by { Power2Split(3, 4); assert Power2(3) == 8 && Power2(2) == 4; assert Power2(4) == 16; }
      Log2Below(n, 7, 128);
    }
  }

  /** The closed formula is exact for every 64-bit value. */
  lemma VarintSizeExact(n: nat)
    requires n < TWO64
    ensures VarintSize(n) == |Varint(n)|
  {
    var m := if n == 0 then 1 else n;
    DigitCount(n);
    Power64();
    Log2Below(m, 64, TWO64);
    var l := Log2(m);
    assert (l * 9 + 73) / 64 == l / 7 + 1 by {
      var q := l / 7;
      var r := l % 7;
      assert l == 7 * q + r && q <= 9;
      assert l * 9 + 73 == 64 * (q + 1) + (9 * r + 9 - q);
      assert 0 <= 9 * r + 9 - q < 64;
    }
  }

  lemma NegativeTakesTen(i: int)
    requires -TWO31 <= i < 0
    ensures |Varint(SignExtend(i))| == 10
  {
    VarintSizeExact(SignExtend(i));
    var n := SignExtend(i);
    DigitCount(n);
    Power64();
    Log2Below(n, 64, TWO64);
    Log2AtLeast(n, 63);
  }

  lemma {:induction false} Log2AtLeast(n: nat, k: nat)
    requires n >= 1 && (k == 0 || n / 2 >= Power2(k) / 2) && n >= Power2(k)
    ensures Log2(n) >= k
    decreases k
  {
    if k > 0 {
      assert Power2(k) == 2 * Power2(k - 1);
      if k > 1 { assert Power2(k - 1) == 2 * Power2(k - 2); }
      Log2AtLeast(n / 2, k - 1);
    }
  }
}
