/**
 * Integer arithmetic with the console's JavaScript semantics: the truncated
 * remainder, the 32-bit bitwise operators, the byte clamp, and the
 * conversions between a 16-bit instruction index and its (high, low) byte pair.
 * Every value is an integer; floating point is not modelled.
 */
module Bytes {

  const LOW: int := 0x00
  const HIGH: int := 0xff

  const TWO_31: int := 0x8000_0000
  const TWO_32: int := 0x1_0000_0000

  function Abs(x: int): (r: nat)
    ensures r == x || r == -x
  {
    if x < 0 then -x else x
  }

  /** JavaScript `x % y`: the remainder of the division truncated toward zero. */
  function JsRem(x: int, y: int): (r: int)
    requires y != 0
    ensures Abs(r) < Abs(y)
    ensures x >= 0 ==> r >= 0
    ensures x <= 0 ==> r <= 0
    ensures x >= 0 && y > 0 ==> r == x % y
    ensures (x - r) % y == 0
  {
    var m := Abs(x) % Abs(y);
    TruncatedQuotient(x, y);
    if x >= 0 then m else -m
  }

  /** `x` minus its truncated remainder is a multiple of `y`. */
  lemma TruncatedQuotient(x: int, y: int)
    requires y != 0
    ensures var m := Abs(x) % Abs(y); (x - (if x >= 0 then m else -m)) % y == 0
  {
    var q := Abs(x) / Abs(y);
    var m := Abs(x) % Abs(y);
    assert Abs(x) == q * Abs(y) + m;
    var k := if (x >= 0) == (y > 0) then q else -q;
    assert x - (if x >= 0 then m else -m) == k * y;
    MultipleRem(k, y);
  }

  lemma MultipleRem(k: int, y: int)
    requires y != 0
    ensures (k * y) % y == 0
  {
    var d := (k * y) / y;
    var r := (k * y) % y;
    assert r == (k - d) * y;
    OnlyZeroMultiple(k - d, y, r);
  }

  /** The only multiple of `y` in `[0, |y|)` is 0. */
  lemma OnlyZeroMultiple(j: int, y: int, r: int)
    requires y != 0 && r == j * y && 0 <= r < Abs(y)
    ensures r == 0
  {
    if y > 0 {
      OnlyZeroQuotient(j, y, r);
    } else {
      assert r == (-j) * (-y);
      OnlyZeroQuotient(-j, -y, r);
    }
  }


  /** JavaScript `ToUint32`: the integer modulo 2^32. */
  function ToUint32(x: int): (r: int)
    ensures 0 <= r < TWO_32
    ensures (x - r) % TWO_32 == 0
    ensures 0 <= x < TWO_32 ==> r == x
  {
    x % TWO_32
  }

  /** JavaScript `ToInt32`: the integer modulo 2^32, read as a two's-complement signed value. */
  function ToInt32(x: int): (r: int)
    ensures -TWO_31 <= r < TWO_31
    ensures (x - r) % TWO_32 == 0
    ensures -TWO_31 <= x < TWO_31 ==> r == x
  {
    var u := ToUint32(x);
    if u >= TWO_31 then u - TWO_32 else u
  }

  function Pow2(k: nat): (r: nat)
    ensures r >= 1
  {
    if k == 0 then 1 else 2 * Pow2(k - 1)
  }

  /**
   * JavaScript `x & y`: the AND of the two 32-bit forms, read back as a
   * signed value. Non-negative 32-bit operands give a non-negative result
   * no larger than either of them.
   */
  function JsAnd(x: int, y: int): (r: int)
    ensures -TWO_31 <= r < TWO_31
    ensures 0 <= x < TWO_31 && 0 <= y < TWO_31 ==> 0 <= r <= x && r <= y
  {
    ToInt32(BitAnd(ToUint32(x), ToUint32(y)))
  }

  /**
   * JavaScript `x | y`. Non-negative operands below `2^31` (or below 256)
   * give a result at least as large as either and still below that bound.
   */
  function JsOr(x: int, y: int): (r: int)
    ensures -TWO_31 <= r < TWO_31
    ensures 0 <= x < TWO_31 && 0 <= y < TWO_31 ==> x <= r && y <= r
    ensures 0 <= x < 256 && 0 <= y < 256 ==> r < 256
  {
    var u := ToUint32(x);
    var v := ToUint32(y);
    OrBounds(u, v);
    ToInt32(BitOr(u, v))
  }

  /** JavaScript `x ^ y`. Operands in [0, 256) give a result in [0, 256). */
  function JsXor(x: int, y: int): (r: int)
    ensures -TWO_31 <= r < TWO_31
    ensures 0 <= x < 256 && 0 <= y < 256 ==> 0 <= r < 256
  {
    var u := ToUint32(x);
    var v := ToUint32(y);
    XorBounds(u, v);
    ToInt32(BitXor(u, v))
  }

  /** XOR with the same operand twice gives back the first operand's 32-bit value. */
  lemma XorInverse(x: int, y: int)
    ensures JsXor(JsXor(x, y), y) == ToInt32(x)
  {
    var u := ToUint32(x);
    var v := ToUint32(y);
    XorBounds(u, v);
    var w := BitXor(u, v);
    assert ToUint32(JsXor(x, y)) == w;
    XorCancels(u, v);
    assert ToUint32(u) == u;
  }

  /** The AND of two non-negative integers, one binary digit at a time. */
  function BitAnd(x: nat, y: nat): (r: nat)
    ensures r <= x && r <= y
  {
    if x == 0 || y == 0 then 0 else 2 * BitAnd(x / 2, y / 2) + (x % 2) * (y % 2)
  }

  /** The OR of two non-negative integers, one binary digit at a time. */
  function BitOr(x: nat, y: nat): (r: nat)
    ensures x <= r && y <= r
  {
    if x == 0 then y
    else if y == 0 then x
    else 2 * BitOr(x / 2, y / 2) + (if x % 2 == 1 || y % 2 == 1 then 1 else 0)
  }

  /** The exclusive OR of two non-negative integers, one binary digit at a time. */
  function BitXor(x: nat, y: nat): nat {
    if x == 0 then y
    else if y == 0 then x
    else 2 * BitXor(x / 2, y / 2) + (x % 2 + y % 2) % 2
  }

  lemma OrBounds(x: nat, y: nat)
    ensures x < 256 && y < 256 ==> BitOr(x, y) < 256
    ensures x < TWO_31 && y < TWO_31 ==> BitOr(x, y) < TWO_31
  {
    Pow2Values();
    if x < 256 && y < 256 {
      OrBelow(x, y, 8);
    }
    if x < TWO_31 && y < TWO_31 {
      OrBelow(x, y, 31);
    }
  }

  lemma XorBounds(x: nat, y: nat)
    ensures x < 256 && y < 256 ==> BitXor(x, y) < 256
    ensures x < TWO_32 && y < TWO_32 ==> BitXor(x, y) < TWO_32
  {
    Pow2Values();
    if x < 256 && y < 256 {
      XorBelow(x, y, 8);
    }
    if x < TWO_32 && y < TWO_32 {
      XorBelow(x, y, 32);
    }
  }

  lemma Pow2Values()
    ensures Pow2(8) == 256 && Pow2(31) == TWO_31 && Pow2(32) == TWO_32
  {
    assert Pow2(8) == 256;
    Pow2Sum(8, 8);
    Pow2Sum(16, 15);
    Pow2Sum(16, 16);
    Pow2Sum(8, 7);
  }

  lemma {:induction false} Pow2Sum(a: nat, b: nat)
    ensures Pow2(a + b) == Pow2(a) * Pow2(b)
  {
    if a > 0 {
      Pow2Sum(a - 1, b);
    }
  }

  /** OR does not set a digit at or above the top digit of both operands. */
  lemma {:induction false} OrBelow(x: nat, y: nat, k: nat)
    requires x < Pow2(k) && y < Pow2(k)
    ensures BitOr(x, y) < Pow2(k)
  {
    if x != 0 && y != 0 {
      OrBelow(x / 2, y / 2, k - 1);
    }
  }

  /** Nor does XOR. */
  lemma {:induction false} XorBelow(x: nat, y: nat, k: nat)
    requires x < Pow2(k) && y < Pow2(k)
    ensures BitXor(x, y) < Pow2(k)
  {
    if x != 0 && y != 0 {
      XorBelow(x / 2, y / 2, k - 1);
    }
  }

  lemma {:induction false} XorCancels(x: nat, y: nat)
    ensures BitXor(BitXor(x, y), y) == x
  {
    if x == 0 {
      XorSelf(y);
    } else if y != 0 {
      var z := BitXor(x, y);
      if z == 0 {
        XorZero(x, y);
      } else {
        var q := BitXor(x / 2, y / 2);
        XorCancels(x / 2, y / 2);
        XorStep(x, y, z, q, (x % 2 + y % 2) % 2);
      }
    }
  }

  /** The digit step of `XorCancels`: the low digits cancel, the rest is the induction. */
  lemma XorStep(x: nat, y: nat, z: nat, q: nat, bit: int)
    requires y != 0 && z != 0 && 0 <= bit < 2
    requires z == 2 * q + bit && bit == (x % 2 + y % 2) % 2 && BitXor(q, y / 2) == x / 2
    ensures BitXor(z, y) == x
  {
    DigitSplit(q, bit);
    assert BitXor(z, y) == 2 * (x / 2) + (bit + y % 2) % 2;
    assert (bit + y % 2) % 2 == x % 2;
  }

  /** A number `2q + bit` halves to `q` with remainder `bit`. */
  lemma DigitSplit(q: nat, bit: int)
    requires 0 <= bit < 2
    ensures (2 * q + bit) / 2 == q && (2 * q + bit) % 2 == bit
  {
  }

  lemma {:induction false} XorSelf(x: nat)
    ensures BitXor(x, x) == 0
  {
    if x != 0 {
      XorSelf(x / 2);
    }
  }

  lemma {:induction false} XorZero(x: nat, y: nat)
    requires BitXor(x, y) == 0
    ensures x == y
  {
    if x != 0 && y != 0 {
      XorZero(x / 2, y / 2);
    }
  }

  /** JavaScript `~x`: the one's complement of the 32-bit value. */
  function JsNot(x: int): (r: int)
    ensures -TWO_31 <= r < TWO_31
  {
    -ToInt32(x) - 1
  }

  /** JavaScript `x << y`: the shift count is taken modulo 32 and the result wraps to 32 bits. */
  function JsShl(x: int, y: int): (r: int)
    ensures -TWO_31 <= r < TWO_31
  {
    ToInt32(x * Pow2(ToUint32(y) % 32))
  }

  /** JavaScript `x >> y`: arithmetic (sign-propagating) shift of the 32-bit value. */
  function JsSar(x: int, y: int): (r: int)
    ensures -TWO_31 <= r < TWO_31
    ensures r == ToInt32(x) / Pow2(ToUint32(y) % 32)
  {
    HalveTimes(ToInt32(x), ToUint32(y) % 32)
  }

  /** `x` halved `k` times, each time rounding toward minus infinity: `floor(x / 2^k)`. */
  function HalveTimes(x: int, k: nat): (r: int)
    ensures x >= 0 ==> 0 <= r <= x
    ensures x < 0 ==> x <= r < 0
    ensures r == x / Pow2(k)
    decreases k
  {
    if k == 0 then x
    else
      HalfThenDivide(x, Pow2(k - 1));
      HalveTimes(x / 2, k - 1)
  }

  /** Halving and then dividing by `b` is dividing by `2b`, both rounding toward minus infinity. */
  lemma HalfThenDivide(x: int, b: int)
    requires b > 0
    ensures (x / 2) / b == x / (2 * b)
  {
    var q := x / (2 * b);
    var r := x % (2 * b);
    assert x == 2 * (b * q) + r by {
      assert x == (2 * b) * q + r;
    }
    assert x / 2 == b * q + r / 2;
    assert 0 <= r / 2 < b;
    DivideShifted(b, q, r / 2);
  }

  lemma DivideShifted(b: int, q: int, t: int)
    requires b > 0 && 0 <= t < b
    ensures (b * q + t) / b == q
  {
    var d := (b * q + t) / b;
    var e := (b * q + t) % b;
    assert e - t == (q - d) * b;
    OnlyZeroQuotient(q - d, b, e - t);
  }

  /** The only multiple of `b > 0` strictly between `-b` and `b` is 0. */
  lemma OnlyZeroQuotient(j: int, b: int, u: int)
    requires b > 0 && u == j * b && -b < u < b
    ensures j == 0
  {
  }



  /** `clampByte` (src/lib/TamaGo.ts:304): saturate a value into [0, 255]. */
  function ClampByte(value: int): (r: int)
    ensures 0 <= r <= 255
    ensures 0 <= value <= 255 ==> r == value
    ensures value < 0 ==> r == 0
    ensures value > 255 ==> r == 255
  {
    if value < 0 then 0 else if value > 255 then 255 else value
  }

  /** `valueIsHigh`: a byte counts as high when it is at least 1. */
  predicate ValueIsHigh(value: int) {
    value >= 1
  }

  /** A two-byte, big-endian address `[high, low]`. */
  datatype Address = Address(high: int, low: int)

  /**
   * `wordToNumber(byte0, byte1)`, that is `(byte0 << 8) | (byte1 & 0xff)`.
   * The left operand of `|` is a 32-bit value whose low eight bits are zero and
   * the right one lies in [0, 255], so the `|` adds them.
   */
  function WordToNumber(byte0: int, byte1: int): (r: int)
    ensures -0x80_0000 <= byte0 < 0x80_0000 ==> r == 256 * byte0 + byte1 % 256
    ensures r % 256 == byte1 % 256
  {
    HighPartAligned(byte0);
    ToInt32(byte0 * 256) + byte1 % 256
  }

  /** The 32-bit reading of `256 * byte0` is still a multiple of 256, and is exact when it fits. */
  lemma HighPartAligned(byte0: int)
    ensures ToInt32(byte0 * 256) % 256 == 0
    ensures -0x80_0000 <= byte0 < 0x80_0000 ==> ToInt32(byte0 * 256) == 256 * byte0
  {
    var x := byte0 * 256;
    var r := ToInt32(x);
    var k := (x - r) / TWO_32;
    assert x - r == k * TWO_32;
    assert r == 256 * (byte0 - k * 0x100_0000);
    MultipleRem(byte0 - k * 0x100_0000, 256);
  }

  /**
   * `numberToWord(n)`, that is `[(n >> 8) & 0xff, n & 0xff]`: bits 8..15 and
   * bits 0..7 of the number (the 32-bit conversion leaves both bytes as they are).
   */
  function NumberToWord(number: int): (r: Address)
    ensures 0 <= r.high < 256 && 0 <= r.low < 256
  {
    Address((number / 256) % 256, number % 256)
  }

  /** numberToWord keeps exactly the number modulo 2^16; wordToNumber reads it back. */
  lemma {:induction false} NumberToWordWraps(x: int)
    ensures WordToNumber(NumberToWord(x).high, NumberToWord(x).low) == x % 65536
  {
    var q, low := x / 256, x % 256;
    var p, high := q / 256, q % 256;
    assert x == 256 * q + low;
    assert q == 256 * p + high;
    assert x == 65536 * p + (256 * high + low);
    ModuloOfSum(x, p, 256 * high + low);
    assert NumberToWord(x) == Address(high, low);
    assert ToInt32(high * 256) == high * 256;
  }

  /** The Euclidean remainder is the unique `m` in [0, 65536) with `x = 65536 p + m`. */
  lemma ModuloOfSum(x: int, p: int, m: int)
    requires x == 65536 * p + m && 0 <= m < 65536
    ensures x % 65536 == m
  {
  }

  /** For every 16-bit index, wordToNumber inverts numberToWord. */
  lemma {:induction false} WordRoundTrip(x: int)
    requires 0 <= x < 65536
    ensures WordToNumber(NumberToWord(x).high, NumberToWord(x).low) == x
  {
    NumberToWordWraps(x);
  }

  /** For every pair of bytes, numberToWord inverts wordToNumber. */
  lemma {:induction false} ByteRoundTrip(high: int, low: int)
    requires 0 <= high < 256 && 0 <= low < 256
    ensures 0 <= WordToNumber(high, low) < 65536
    ensures NumberToWord(WordToNumber(high, low)) == Address(high, low)
  {
    var n := WordToNumber(high, low);
    assert ToInt32(high * 256) == high * 256;
    assert n == 256 * high + low;
    assert n / 256 == high;
    assert n % 256 == low;
  }
}
