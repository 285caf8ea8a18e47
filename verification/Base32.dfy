/** `crockford32`: base-32 text of a byte string, five bits a digit, and what its digits say. */
module Base32 {
  import opened Bytes

  const CROCKFORD: string := "0123456789ABCDEFGHJKMNPQRSTVWXYZ"

  function Pow2(n: nat): (p: nat)
    ensures p > 0
  {
    if n == 0 then 1 else 2 * Pow2(n - 1)
  }

  /** The last `n` bits of a number, most significant first. */
  function BitsOf(x: nat, n: nat): (r: seq<bool>)
    ensures |r| == n
  {
    if n == 0 then [] else BitsOf(x / 2, n - 1) + [x % 2 == 1]
  }

  function Value(bits: seq<bool>): (v: nat)
    ensures v < Pow2(|bits|)
  {
    if bits == [] then 0 else 2 * Value(bits[..|bits| - 1]) + if bits[|bits| - 1] then 1 else 0
  }

  /** `x << n`, `x >>> n` and `x & ((1 << n) - 1)`. */
  function Shl(x: nat, n: nat): nat {
    if n == 0 then x else 2 * Shl(x, n - 1)
  }

  function Shr(x: nat, n: nat): nat {
    if n == 0 then x else Shr(x / 2, n - 1)
  }

  function Low(x: nat, n: nat): (r: nat)
    ensures r < Pow2(n)
  {
    if n == 0 then 0 else 2 * Low(x / 2, n - 1) + x % 2
  }

  lemma {:induction false} ValueOfBits(x: nat, n: nat)
    ensures Value(BitsOf(x, n)) == Low(x, n)
  {
    if n > 0 {
      ValueOfBits(x / 2, n - 1);
      assert BitsOf(x, n)[..n - 1] == BitsOf(x / 2, n - 1);
    }
  }

  lemma {:induction false} LowBits(x: nat, n: nat)
    ensures BitsOf(Low(x, n), n) == BitsOf(x, n)
  {
    if n > 0 { LowBits(x / 2, n - 1); }
  }

  lemma {:induction false} LowSame(x: nat, n: nat)
    requires x < Pow2(n)
    ensures Low(x, n) == x
  {
    if n > 0 { LowSame(x / 2, n - 1); }
  }

  lemma {:induction false} BitsOfValue(bits: seq<bool>)
    ensures BitsOf(Value(bits), |bits|) == bits
  {
    if bits != [] {
      BitsOfValue(bits[..|bits| - 1]);
    }
  }

  /** Shifting in `n` bits. */
  lemma {:induction false} BitsConcat(x: nat, m: nat, y: nat, n: nat)
    requires y < Pow2(n)
    ensures BitsOf(Shl(x, n) + y, m + n) == BitsOf(x, m) + BitsOf(y, n)
    ensures x < Pow2(m) ==> Shl(x, n) + y < Pow2(m + n)
  {
    if n > 0 {
      BitsConcat(x, m, y / 2, n - 1);
      assert (Shl(x, n) + y) / 2 == Shl(x, n - 1) + y / 2 && (Shl(x, n) + y) % 2 == y % 2;
    }
  }

  /** Shifting the last `n` of `k + n` bits out. */
  lemma {:induction false} SplitBits(x: nat, k: nat, n: nat)
    ensures BitsOf(x, k + n) == BitsOf(Shr(x, n), k) + BitsOf(x, n)
  {
    if n > 0 { SplitBits(x / 2, k, n - 1); }
  }

  /** The bits of a byte string. */
  function Bits(bytes: seq<Byte>): (r: seq<bool>)
    ensures |r| == 8 * |bytes|
  {
    if bytes == [] then [] else BitsOf(bytes[0] as nat, 8) + Bits(bytes[1..])
  }

  function Zeros(n: nat): (r: seq<bool>)
    ensures |r| == n && forall i :: 0 <= i < n ==> !r[i]
  {
    seq(n, _ => false)
  }

  function Digit(bits: seq<bool>): char
    requires |bits| == 5
  {
    assert Pow2(5) == 32 by { assert Pow2(3) == 8; }
    CROCKFORD[Value(bits)]
  }

  /** The text of a bit string: a digit for every five bits, the last ones filled up with zeros. */
  function Encode(bits: seq<bool>): string {
    if bits == [] then []
    else if |bits| < 5 then [Digit(bits + Zeros(5 - |bits|))]
    else [Digit(bits[..5])] + Encode(bits[5..])
  }

  function Crockford32(bytes: seq<Byte>): string {
    Encode(Bits(bytes))
  }

  lemma BitsSnoc(bytes: seq<Byte>, b: Byte)
    ensures Bits([b] + bytes) == BitsOf(b as nat, 8) + Bits(bytes)
  {
    assert ([b] + bytes)[1..] == bytes;
  }

  lemma Pow5()
    ensures Pow2(5) == 32
  {
    assert Pow2(3) == 8;
  }

  lemma Pow8()
    ensures Pow2(8) == 256
  {
    assert Pow2(4) == 16;
  }

  lemma DigitIs(x: nat)
    ensures Low(x, 5) < 32 && Digit(BitsOf(x, 5)) == CROCKFORD[Low(x, 5)]
  {
    Pow5();
    ValueOfBits(x, 5);
  }

  lemma EncodeFive(first: seq<bool>, rest: seq<bool>)
    requires |first| == 5
    ensures Encode(first + rest) == [Digit(first)] + Encode(rest)
  {
    assert (first + rest)[..5] == first && (first + rest)[5..] == rest;
  }

  /** Five bits taken off the accumulator are the next digit. */
  lemma TakeDigit(acc: nat, bits: nat, rest: seq<bool>)
    requires 5 <= bits
    ensures Low(Shr(acc, bits - 5), 5) < 32
    ensures Encode(BitsOf(acc, bits) + rest)
            == [CROCKFORD[Low(Shr(acc, bits - 5), 5)]] + Encode(BitsOf(Low(acc, bits - 5), bits - 5) + rest)
  {
    hide BitsOf, Low, Shr, Encode, Digit;
    var top := Shr(acc, bits - 5);
    SplitBits(acc, 5, bits - 5);
    LowBits(acc, bits - 5);
    DigitIs(top);
    EncodeFive(BitsOf(top, 5), BitsOf(acc, bits - 5) + rest);
    assert BitsOf(acc, bits) + rest == BitsOf(top, 5) + (BitsOf(acc, bits - 5) + rest);
  }

  /** The bits left over, filled up with zeros, are the last digit. */
  lemma LastDigit(acc: nat, bits: nat)
    requires 0 < bits < 5
    ensures Low(Shl(acc, 5 - bits), 5) < 32
    ensures Encode(BitsOf(acc, bits)) == [CROCKFORD[Low(Shl(acc, 5 - bits), 5)]]
  {
    hide BitsOf, Low, Shl, Encode, Digit;
    var pad := 5 - bits;
    BitsConcat(acc, bits, 0, pad);
    ZeroBits(pad);
    EncodeShort(BitsOf(acc, bits));
    DigitIs(Shl(acc, pad));
  }

  lemma EncodeShort(bits: seq<bool>)
    requires 0 < |bits| < 5
    ensures Encode(bits) == [Digit(bits + Zeros(5 - |bits|))]
  {
  }

  lemma {:induction false} ZeroBits(n: nat)
    ensures BitsOf(0, n) == Zeros(n) && 0 < Pow2(n)
  {
    if n > 0 { ZeroBits(n - 1); }
  }

  /** The loop of `crockford32`: an accumulator of fewer than five bits between bytes, and never more than
      twelve, so that its 32-bit shifts lose nothing. */
  method Crockford(bytes: seq<Byte>) returns (out: string)
    ensures out == Crockford32(bytes)
  {
    hide Encode, BitsOf, Pow2, Bits, Low, Shl, Shr;
    var bits, acc: nat := 0, 0;
    out := "";
    Nothing(bytes);
    for i := 0 to |bytes|
      invariant bits < 5 && acc < Pow2(bits)
      invariant out + Encode(BitsOf(acc, bits) + Bits(bytes[i..])) == Crockford32(bytes)
    {
      NextByte(acc, bits, bytes, i);
      acc, bits := Shl(acc, 8) + bytes[i] as nat, bits + 8;
      while bits >= 5
        invariant bits <= 12 && acc < Pow2(bits)
        invariant out + Encode(BitsOf(acc, bits) + Bits(bytes[i + 1..])) == Crockford32(bytes)
        decreases bits
      {
        TakeDigit(acc, bits, Bits(bytes[i + 1..]));
        out := out + [CROCKFORD[Low(Shr(acc, bits - 5), 5)]];
        acc, bits := Low(acc, bits - 5), bits - 5;
      }
    }
    assert BitsOf(acc, bits) + Bits(bytes[|bytes|..]) == BitsOf(acc, bits);
    if bits > 0 {
      LastDigit(acc, bits);
      out := out + [CROCKFORD[Low(Shl(acc, 5 - bits), 5)]];
    } else {
      EncodeNothing(acc);
    }
  }

  lemma Nothing(bytes: seq<Byte>)
    ensures BitsOf(0, 0) + Bits(bytes) == Bits(bytes) && 0 < Pow2(0) && Bits(bytes[|bytes|..]) == [] && bytes[0..] == bytes
  {
    hide BitsOf;
  }

  lemma EncodeNothing(acc: nat)
    ensures Encode(BitsOf(acc, 0)) == []
  {
  }

  lemma NextByte(acc: nat, bits: nat, bytes: seq<Byte>, i: nat)
    requires i < |bytes| && acc < Pow2(bits)
    ensures Shl(acc, 8) + bytes[i] as nat < Pow2(bits + 8)
    ensures BitsOf(acc, bits) + Bits(bytes[i..]) == BitsOf(Shl(acc, 8) + bytes[i] as nat, bits + 8) + Bits(bytes[i + 1..])
  {
    hide Bits, BitsOf, Pow2, Shl;
    Pow8();
    BitsConcat(acc, bits, bytes[i] as nat, 8);
    BitsSnoc(bytes[i + 1..], bytes[i]);
    assert [bytes[i]] + bytes[i + 1..] == bytes[i..];
    assert BitsOf(acc, bits) + (BitsOf(bytes[i] as nat, 8) + Bits(bytes[i + 1..]))
           == (BitsOf(acc, bits) + BitsOf(bytes[i] as nat, 8)) + Bits(bytes[i + 1..]);
  }

  // ---------------------------------------------------------------- reading it back

  function DigitValue(c: char): nat {
    var u := c as int;
    if u < 58 then if u >= 48 then u - 48 else 0
    else if u < 65 then 0
    else if u < 73 then u - 55
    else if u < 76 then u - 56
    else if u < 79 then u - 57
    else if u < 85 then u - 58
    else u - 59
  }

  lemma DigitOf(v: nat)
    requires v < 32
    ensures DigitValue(CROCKFORD[v]) == v
  {
  }

  function Decode(text: string): seq<bool> {
    if text == [] then [] else BitsOf(DigitValue(text[0]), 5) + Decode(text[1..])
  }

  lemma DigitBack(bits: seq<bool>)
    requires |bits| == 5
    ensures BitsOf(DigitValue(Digit(bits)), 5) == bits
  {
    Pow5();
    DigitOf(Value(bits));
    BitsOfValue(bits);
  }

  /** The digits read back give the bits, and fewer than five zeros. */
  lemma {:induction false} DecodeEncode(bits: seq<bool>)
    ensures bits <= Decode(Encode(bits))
    ensures |bits| <= 5 * |Encode(bits)| < |bits| + 5
    ensures Decode(Encode(bits)) == bits + Zeros(5 * |Encode(bits)| - |bits|)
  {
    hide Digit, DigitValue, BitsOf;
    if bits != [] {
      var first := if |bits| < 5 then bits + Zeros(5 - |bits|) else bits[..5];
      DigitBack(first);
      assert Encode(bits)[0] == Digit(first);
      if |bits| < 5 {
        assert Encode(bits)[1..] == [];
      } else {
        assert Encode(bits)[1..] == Encode(bits[5..]);
        DecodeEncode(bits[5..]);
        assert bits == bits[..5] + bits[5..];
      }
    }
  }

  /** The first `k` digits speak of the first `5k` bits only. */
  lemma {:induction false} EncodePrefix(bits: seq<bool>, k: nat)
    requires 5 * k <= |bits|
    ensures k <= |Encode(bits)| && Encode(bits)[..k] == Encode(bits[..5 * k])
  {
    hide Digit;
    if k > 0 {
      EncodePrefix(bits[5..], k - 1);
      assert bits[5..][..5 * (k - 1)] == bits[..5 * k][5..];
      assert bits[..5 * k][..5] == bits[..5];
    }
  }

  lemma {:induction false} BitsPrefix(bytes: seq<Byte>, m: nat)
    requires m <= |bytes|
    ensures Bits(bytes)[..8 * m] == Bits(bytes[..m])
  {
    hide BitsOf;
    if m > 0 {
      BitsPrefix(bytes[1..], m - 1);
      assert bytes[..m][1..] == bytes[1..][..m - 1];
    }
  }

  lemma SameByte(a: Byte, b: Byte)
    requires BitsOf(a as nat, 8) == BitsOf(b as nat, 8)
    ensures a == b
  {
    hide BitsOf, Low;
    Pow8();
    ValueOfBits(a as nat, 8);
    ValueOfBits(b as nat, 8);
    LowSame(a as nat, 8);
    LowSame(b as nat, 8);
  }

  lemma {:induction false} BitsInjective(a: seq<Byte>, b: seq<Byte>)
    requires Bits(a) == Bits(b)
    ensures a == b
  {
    assert |a| == |b|;
    if a != [] {
      assert Bits(a)[..8] == BitsOf(a[0] as nat, 8) && Bits(b)[..8] == BitsOf(b[0] as nat, 8);
      assert Bits(a)[8..] == Bits(a[1..]) && Bits(b)[8..] == Bits(b[1..]);
      SameByte(a[0], b[0]);
      BitsInjective(a[1..], b[1..]);
    }
  }

  /** Cut off after `k` digits, two texts of byte strings are equal only if the bytes those digits cover
      whole are: `k` digits bind `5k / 8` bytes. */
  lemma TruncatedBinds(a: seq<Byte>, b: seq<Byte>, k: nat)
    requires 5 * k <= 8 * |a| && 5 * k <= 8 * |b|
    requires k <= |Crockford32(a)| && k <= |Crockford32(b)| && Crockford32(a)[..k] == Crockford32(b)[..k]
    ensures 5 * k / 8 <= |a| && 5 * k / 8 <= |b| && a[..5 * k / 8] == b[..5 * k / 8]
  {
    var x, y, m := Bits(a)[..5 * k], Bits(b)[..5 * k], 5 * k / 8;
    EncodePrefix(Bits(a), k);
    EncodePrefix(Bits(b), k);
    DecodeEncode(x);
    DecodeEncode(y);
    hide Bits, Encode, Decode;
    assert x == Decode(Encode(x))[..5 * k] == Decode(Encode(y))[..5 * k] == y;
    BitsPrefix(a, m);
    BitsPrefix(b, m);
    assert Bits(a)[..8 * m] == x[..8 * m] && Bits(b)[..8 * m] == y[..8 * m];
    BitsInjective(a[..m], b[..m]);
  }

  /** Whole texts of byte strings of one length are equal only if the byte strings are. */
  lemma CrockfordInjective(a: seq<Byte>, b: seq<Byte>)
    requires |a| == |b| && Crockford32(a) == Crockford32(b)
    ensures a == b
  {
    DecodeEncode(Bits(a));
    DecodeEncode(Bits(b));
    assert Bits(a) == Decode(Crockford32(a))[..8 * |a|] == Bits(b);
    BitsInjective(a, b);
  }

  // ---------------------------------------------------------------- digit by digit

  /** The digits ascend: the ten figures, then the capital letters without I, L, O and U. */
  lemma AlphabetExact()
    ensures |CROCKFORD| == 32
    ensures forall i, j :: 0 <= i < j < 32 ==> CROCKFORD[i] < CROCKFORD[j]
    ensures forall i :: 0 <= i < 32 ==> ('0' <= CROCKFORD[i] <= '9' || 'A' <= CROCKFORD[i] <= 'Z') && CROCKFORD[i] !in "ILOU"
  {
    assert forall i :: 0 <= i < 31 ==> CROCKFORD[i] < CROCKFORD[i + 1];
    forall i, j | 0 <= i < j < 32 ensures CROCKFORD[i] < CROCKFORD[j] { Ascends(i, j); }
  }

  lemma {:induction false} Ascends(i: nat, j: nat)
    requires i < j < 32 && forall k :: 0 <= k < 31 ==> CROCKFORD[k] < CROCKFORD[k + 1]
    ensures CROCKFORD[i] < CROCKFORD[j]
  {
    assert CROCKFORD[j - 1] < CROCKFORD[(j - 1) + 1];
    if i < j - 1 { Ascends(i, j - 1); }
  }

  const WEIGHTS: seq<nat> := [128, 64, 32, 16, 8, 4, 2, 1]

  /** Bit `j` of a byte string, the highest bit of its first byte being the first; past the end, zero. */
  function Bit(bytes: seq<Byte>, j: nat): nat {
    if j < 8 * |bytes| then bytes[j / 8] as nat / WEIGHTS[j % 8] % 2 else 0
  }

  lemma Halves(x: nat)
    ensures x / 2 / 2 == x / 4 && x / 4 / 2 == x / 8 && x / 8 / 2 == x / 16
    ensures x / 16 / 2 == x / 32 && x / 32 / 2 == x / 64 && x / 64 / 2 == x / 128
  {
  }

  lemma BitsBack(x: nat, n: nat)
    requires n > 0
    ensures BitsOf(x, n) == BitsOf(x / 2, n - 1) + [x % 2 == 1]
  {
  }

  lemma ByteBits(x: nat, i: nat)
    requires i < 8
    ensures BitsOf(x, 8)[i] <==> x / WEIGHTS[i] % 2 == 1
  {
    Halves(x);
    BitsBack(x, 8);
    BitsBack(x / 2, 7);
    BitsBack(x / 4, 6);
    BitsBack(x / 8, 5);
    BitsBack(x / 16, 4);
    BitsBack(x / 32, 3);
    BitsBack(x / 64, 2);
    BitsBack(x / 128, 1);
    hide BitsOf;
    assert WEIGHTS[7] == 1 && x / 1 == x;
  }

  lemma {:induction false} BitsExact(bytes: seq<Byte>, j: nat)
    requires j < 8 * |bytes|
    ensures Bits(bytes)[j] <==> Bit(bytes, j) == 1
  {
    if j < 8 {
      ByteBits(bytes[0] as nat, j);
    } else {
      BitsExact(bytes[1..], j - 8);
      assert bytes[1..][(j - 8) / 8] == bytes[j / 8] && (j - 8) % 8 == j % 8;
    }
  }

  /** The k-th digit stands for the k-th five bits. */
  lemma DigitsExact(bytes: seq<Byte>, k: nat)
    requires 5 * k < 8 * |bytes|
    ensures |Crockford32(bytes)| == (8 * |bytes| + 4) / 5
    ensures var v := 16 * Bit(bytes, 5 * k) + 8 * Bit(bytes, 5 * k + 1) + 4 * Bit(bytes, 5 * k + 2)
                     + 2 * Bit(bytes, 5 * k + 3) + Bit(bytes, 5 * k + 4);
            v < 32 && k < |Crockford32(bytes)| && Crockford32(bytes)[k] == CROCKFORD[v]
  {
    hide Bit, Value, Bits, Five, Crockford32, Digit;
    var five := Five(Bits(bytes), k);
    DigitFive(bytes, k);
    FiveBits(bytes, k);
    DigitAt(five, Sum(five, Bit(bytes, 5 * k), Bit(bytes, 5 * k + 1), Bit(bytes, 5 * k + 2), Bit(bytes, 5 * k + 3), Bit(bytes, 5 * k + 4)));
  }

  lemma DigitFive(bytes: seq<Byte>, k: nat)
    requires 5 * k < 8 * |bytes|
    ensures |Crockford32(bytes)| == (8 * |bytes| + 4) / 5
    ensures k < |Crockford32(bytes)| && Crockford32(bytes)[k] == Digit(Five(Bits(bytes), k))
  {
    EncodeAt(Bits(bytes), k);
    hide Encode, Digit, Five;
  }

  /** The value of five bits given as numbers. */
  function Sum(ghost five: seq<bool>, a: nat, b: nat, c: nat, d: nat, e: nat): (v: nat)
    requires |five| == 5 && a <= 1 && b <= 1 && c <= 1 && d <= 1 && e <= 1
    requires (five[0] <==> a == 1) && (five[1] <==> b == 1) && (five[2] <==> c == 1) && (five[3] <==> d == 1) && (five[4] <==> e == 1)
    ensures v == Value(five)
  {
    FiveValue(five);
    16 * a + 8 * b + 4 * c + 2 * d + e
  }

  lemma FiveBits(bytes: seq<Byte>, k: nat)
    ensures var (five, j) := (Five(Bits(bytes), k), 5 * k);
            && Bit(bytes, j) <= 1 && Bit(bytes, j + 1) <= 1 && Bit(bytes, j + 2) <= 1 && Bit(bytes, j + 3) <= 1 && Bit(bytes, j + 4) <= 1
            && (five[0] <==> Bit(bytes, j) == 1) && (five[1] <==> Bit(bytes, j + 1) == 1) && (five[2] <==> Bit(bytes, j + 2) == 1)
            && (five[3] <==> Bit(bytes, j + 3) == 1) && (five[4] <==> Bit(bytes, j + 4) == 1)
  {
    FiveBit(bytes, k, 0);
    FiveBit(bytes, k, 1);
    FiveBit(bytes, k, 2);
    FiveBit(bytes, k, 3);
    FiveBit(bytes, k, 4);
    BitRange(bytes, 5 * k);
    hide Bit, Bits, Five;
  }

  lemma DigitAt(five: seq<bool>, v: nat)
    requires |five| == 5 && Value(five) == v
    ensures v < 32 && Digit(five) == CROCKFORD[v]
  {
    Pow5();
  }

  lemma BitRange(bytes: seq<Byte>, j: nat)
    ensures Bit(bytes, j + 0) <= 1 && Bit(bytes, j + 1) <= 1 && Bit(bytes, j + 2) <= 1 && Bit(bytes, j + 3) <= 1 && Bit(bytes, j + 4) <= 1
  {
  }

  lemma FiveBit(bytes: seq<Byte>, k: nat, i: nat)
    requires i < 5
    ensures Five(Bits(bytes), k)[i] <==> Bit(bytes, 5 * k + i) == 1
  {
    hide Bits, BitsOf;
    if 5 * k + i < 8 * |bytes| { BitsExact(bytes, 5 * k + i); }
  }

  /** The k-th five bits, zeros past the end. */
  function Five(bits: seq<bool>, k: nat): (r: seq<bool>)
    ensures |r| == 5
  {
    seq(5, i requires 0 <= i < 5 => 5 * k + i < |bits| && bits[5 * k + i])
  }

  lemma FiveValue(five: seq<bool>)
    requires |five| == 5
    ensures Value(five) == (if five[0] then 16 else 0) + (if five[1] then 8 else 0) + (if five[2] then 4 else 0)
                           + (if five[3] then 2 else 0) + (if five[4] then 1 else 0)
  {
    var a4, a3, a2, a1 := five[..4], five[..3], five[..2], five[..1];
    assert a4[..3] == a3 && a3[..2] == a2 && a2[..1] == a1 && a1[..0] == [];
    assert Value(a1) == if five[0] then 1 else 0;
    assert Value(a2) == 2 * Value(a1) + if five[1] then 1 else 0;
    assert Value(a3) == 2 * Value(a2) + if five[2] then 1 else 0;
    assert Value(a4) == 2 * Value(a3) + if five[3] then 1 else 0;
  }

  lemma {:induction false} EncodeAt(bits: seq<bool>, k: nat)
    requires 5 * k < |bits|
    ensures |Encode(bits)| == (|bits| + 4) / 5 && k < |Encode(bits)| && Encode(bits)[k] == Digit(Five(bits, k))
    decreases |bits|
  {
    hide Digit;
    if |bits| < 5 {
      assert bits + Zeros(5 - |bits|) == Five(bits, 0);
    } else if k == 0 {
      assert bits[..5] == Five(bits, 0);
      if |bits| > 5 { EncodeAt(bits[5..], 0); }
    } else {
      EncodeAt(bits[5..], k - 1);
      assert Five(bits[5..], k - 1) == Five(bits, k);
    }
  }
}
