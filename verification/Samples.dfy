/** Bytes, 16-bit samples and bit operations of the G.711 encoders and decoders. */
module Samples {

  /** A Java byte. */
  type Byte = x: int | -128 <= x < 128

  /** A Java short. */
  type Short = x: int | -0x8000 <= x < 0x8000

  function Unsigned(b: Byte): nat {
    b % 256
  }

  function ToByte(x: int): Byte {
    var u := x % 256;
    if u < 128 then u else u - 256
  }

  function Abs(x: int): nat {
    if x < 0 then -x else x
  }

  function Pow2(n: nat): (p: nat)
    ensures p > 0
  {
    if n == 0 then 1 else 2 * Pow2(n - 1)
  }

  /** Four bits, exclusive-or 5: bits 0 and 2 are inverted. */
  function Flip(n: nat): nat
    requires n < 16
  {
    if n % 2 == 0 then
      if n / 4 % 2 == 0 then n + 5 else n - 3
    else
      if n / 4 % 2 == 0 then n + 3 else n - 5
  }

  /** `x ^ 0x55` for eight bits */
  function Xor55(x: nat): nat
    requires x < 256
  {
    16 * Flip(x / 16) + Flip(x % 16)
  }

  lemma FlipTwice(n: nat)
    requires n < 16
    ensures Flip(n) < 16 && Flip(Flip(n)) == n
  {}

  lemma FlipKeepsTop(n: nat)
    requires n < 8
    ensures Flip(n) < 8 && Flip(n + 8) == Flip(n) + 8
  {}

  lemma Nibbles(high: nat, low: nat)
    requires high < 16 && low < 16
    ensures (16 * high + low) / 16 == high && (16 * high + low) % 16 == low
  {}

  lemma Xor55Of(high: nat, low: nat)
    requires high < 16 && low < 16
    ensures Xor55(16 * high + low) == 16 * Flip(high) + Flip(low)
  {
    Nibbles(high, low);
  }

  lemma Xor55Twice(x: nat)
    requires x < 256
    ensures Xor55(x) < 256 && Xor55(Xor55(x)) == x
  {
    FlipTwice(x / 16);
    FlipTwice(x % 16);
    Xor55Of(Flip(x / 16), Flip(x % 16));
  }

  /** `(low & 0xff) | high << 8` as a short */
  function SampleOf(low: Byte, high: Byte): Short {
    Unsigned(low) + 256 * high
  }

  function LowByte(s: Short): Byte {
    ToByte(s)
  }

  function HighByte(s: Short): Byte {
    ToByte(s / 256)
  }

  lemma SampleOfBytes(s: Short)
    ensures SampleOf(LowByte(s), HighByte(s)) == s
  {}

  /** Sample number `i` of a buffer. */
  function SampleAt(buffer: seq<Byte>, i: nat): Short
    requires 2 * i + 1 < |buffer|
  {
    SampleOf(buffer[2 * i], buffer[2 * i + 1])
  }

  lemma MulMonotone(a: int, b: int, w: int)
    requires a <= b && w > 0
    ensures a * w <= b * w
  {}

  lemma Quotient(c: nat, w: nat)
    requires w > 0 && 16 * w <= c < 32 * w
    ensures 16 <= c / w < 32 && (c / w) * w <= c < (c / w + 1) * w
  {
    var q := c / w;
    assert c == q * w + c % w;
    assert (q + 1) * w == q * w + w;
    if q < 16 { MulMonotone(q + 1, 16, w); }
    if q >= 32 { MulMonotone(32, q, w); }
  }
}
