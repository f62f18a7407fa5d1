/** Mu-law, section 3 of ITU-T G.711. */
module MuLaw {
  import opened Samples

  const BIAS := 0x84
  const SEGMENT_ENDS: seq<int> := [0xFF, 0x1FF, 0x3FF, 0x7FF, 0xFFF, 0x1FFF, 0x3FFF, 0x7FFF]

  /** The largest magnitude to which the bias can be added in a short. */
  const LIMIT := 32635

  // The table of the decoder, in rows of sixteen.
  const ROW_0: seq<Short> := [-32124, -31100, -30076, -29052, -28028, -27004, -25980, -24956, -23932, -22908, -21884,
                              -20860, -19836, -18812, -17788, -16764]
  const ROW_1: seq<Short> := [-15996, -15484, -14972, -14460, -13948, -13436, -12924, -12412, -11900, -11388, -10876,
                              -10364, -9852, -9340, -8828, -8316]
  const ROW_2: seq<Short> := [-7932, -7676, -7420, -7164, -6908, -6652, -6396, -6140, -5884, -5628, -5372, -5116,
                              -4860, -4604, -4348, -4092]
  const ROW_3: seq<Short> := [-3900, -3772, -3644, -3516, -3388, -3260, -3132, -3004, -2876, -2748, -2620, -2492,
                              -2364, -2236, -2108, -1980]
  const ROW_4: seq<Short> := [-1884, -1820, -1756, -1692, -1628, -1564, -1500, -1436, -1372, -1308, -1244, -1180,
                              -1116, -1052, -988, -924]
  const ROW_5: seq<Short> := [-876, -844, -812, -780, -748, -716, -684, -652, -620, -588, -556, -524, -492, -460,
                              -428, -396]
  const ROW_6: seq<Short> := [-372, -356, -340, -324, -308, -292, -276, -260, -244, -228, -212, -196, -180, -164,
                              -148, -132]
  const ROW_7: seq<Short> := [-120, -112, -104, -96, -88, -80, -72, -64, -56, -48, -40, -32, -24, -16, -8, 0]
  const ROW_8: seq<Short> := [32124, 31100, 30076, 29052, 28028, 27004, 25980, 24956, 23932, 22908, 21884, 20860,
                              19836, 18812, 17788, 16764]
  const ROW_9: seq<Short> := [15996, 15484, 14972, 14460, 13948, 13436, 12924, 12412, 11900, 11388, 10876, 10364,
                              9852, 9340, 8828, 8316]
  const ROW_10: seq<Short> := [7932, 7676, 7420, 7164, 6908, 6652, 6396, 6140, 5884, 5628, 5372, 5116, 4860, 4604,
                               4348, 4092]
  const ROW_11: seq<Short> := [3900, 3772, 3644, 3516, 3388, 3260, 3132, 3004, 2876, 2748, 2620, 2492, 2364, 2236,
                               2108, 1980]
  const ROW_12: seq<Short> := [1884, 1820, 1756, 1692, 1628, 1564, 1500, 1436, 1372, 1308, 1244, 1180, 1116, 1052,
                               988, 924]
  const ROW_13: seq<Short> := [876, 844, 812, 780, 748, 716, 684, 652, 620, 588, 556, 524, 492, 460, 428, 396]
  const ROW_14: seq<Short> := [372, 356, 340, 324, 308, 292, 276, 260, 244, 228, 212, 196, 180, 164, 148, 132]
  const ROW_15: seq<Short> := [120, 112, 104, 96, 88, 80, 72, 64, 56, 48, 40, 32, 24, 16, 8, 0]

  function LowTable(r: nat, k: nat): Short
    requires r < 8 && k < 16
  {
    match r
    case 0 => ROW_0[k]
    case 1 => ROW_1[k]
    case 2 => ROW_2[k]
    case 3 => ROW_3[k]
    case 4 => ROW_4[k]
    case 5 => ROW_5[k]
    case 6 => ROW_6[k]
    case _ => ROW_7[k]
  }

  function HighTable(r: nat, k: nat): Short
    requires r < 8 && k < 16
  {
    match r
    case 0 => ROW_8[k]
    case 1 => ROW_9[k]
    case 2 => ROW_10[k]
    case 3 => ROW_11[k]
    case 4 => ROW_12[k]
    case 5 => ROW_13[k]
    case 6 => ROW_14[k]
    case _ => ROW_15[k]
  }

  function Decompress(code: Byte): Short {
    var u := Unsigned(code);
    if u < 128 then LowTable(u / 16, u % 16) else HighTable(u / 16 - 8, u % 16)
  }

  /** `search`: the first segment that the value does not go beyond. */
  function Search(val: int, i: nat): (seg: nat)
    requires i <= 8
    ensures i <= seg <= 8 && (seg < 8 ==> val <= SEGMENT_ENDS[seg]) && forall k | i <= k < seg :: val > SEGMENT_ENDS[k]
    decreases 8 - i
  {
    if i == 8 || val <= SEGMENT_ENDS[i] then i else Search(val, i + 1)
  }

  function ToShort(x: int): Short {
    var u := x % 0x10000;
    if u < 0x8000 then u else u - 0x10000
  }

  /** The seven bits for a biased magnitude. */
  function Level(biased: Short): nat {
    var seg := Search(biased, 0);
    if seg >= 8 then 127 else 16 * seg + biased / Pow2(seg + 3) % 16
  }

  function Biased(sample: Short): (biased: Short)
    ensures -LIMIT <= sample <= LIMIT ==> biased == Abs(sample) + BIAS
  {
    ToShort(if sample < 0 then BIAS - sample else sample + BIAS)
  }

  /** `linear2ulaw`: the bias is added in a short; the code is complemented, for positive samples with the
      sign bit too. */
  function Compress(sample: Short): Byte {
    ToByte((if sample < 0 then 127 else 255) - Level(Biased(sample)))
  }

  /** Segment `e` has the biased magnitudes from `16 * Width(e)` on, in intervals of this width. */
  function Width(e: nat): int {
    if e == 0 then 8 else if e == 1 then 16 else if e == 2 then 32 else if e == 3 then 64 else if e == 4 then 128
    else if e == 5 then 256 else if e == 6 then 512 else 1024
  }

  /** The middle of an interval, without the bias. */
  function Middle(e: nat, m: int): int {
    16 * Width(e) + m * Width(e) + Width(e) / 2 - BIAS
  }

  predicate RowIs(row: seq<int>, base: int, step: int) {
    |row| == 16 &&
    row[0] == base - 0 * step && row[1] == base - 1 * step && row[2] == base - 2 * step && row[3] == base - 3 * step &&
    row[4] == base - 4 * step && row[5] == base - 5 * step && row[6] == base - 6 * step && row[7] == base - 7 * step &&
    row[8] == base - 8 * step && row[9] == base - 9 * step && row[10] == base - 10 * step
      && row[11] == base - 11 * step &&
    row[12] == base - 12 * step && row[13] == base - 13 * step && row[14] == base - 14 * step
      && row[15] == base - 15 * step
  }

  lemma RowAt(row: seq<int>, base: int, step: int, k: nat)
    requires RowIs(row, base, step) && k < 16
    ensures row[k] == base - k * step
  {
    if k < 8 {
      if k == 0 {} else if k == 1 {} else if k == 2 {} else if k == 3 {} else if k == 4 {} else if k == 5 {}
        else if k == 6 {} else {}
    } else {
      if k == 8 {} else if k == 9 {} else if k == 10 {} else if k == 11 {} else if k == 12 {} else if k == 13 {}
        else if k == 14 {} else {}
    }
  }

  lemma LowRow0(k: nat)
    requires k < 16
    ensures LowTable(0, k) == -Middle(7, 15 - k)
  {
    RowAt(ROW_0, -32124, -1024, k);
  }

  lemma HighRow0(k: nat)
    requires k < 16
    ensures HighTable(0, k) == Middle(7, 15 - k)
  {
    RowAt(ROW_8, 32124, 1024, k);
  }

  lemma LowRow1(k: nat)
    requires k < 16
    ensures LowTable(1, k) == -Middle(6, 15 - k)
  {
    RowAt(ROW_1, -15996, -512, k);
  }

  lemma HighRow1(k: nat)
    requires k < 16
    ensures HighTable(1, k) == Middle(6, 15 - k)
  {
    RowAt(ROW_9, 15996, 512, k);
  }

  lemma LowRow2(k: nat)
    requires k < 16
    ensures LowTable(2, k) == -Middle(5, 15 - k)
  {
    RowAt(ROW_2, -7932, -256, k);
  }

  lemma HighRow2(k: nat)
    requires k < 16
    ensures HighTable(2, k) == Middle(5, 15 - k)
  {
    RowAt(ROW_10, 7932, 256, k);
  }

  lemma LowRow3(k: nat)
    requires k < 16
    ensures LowTable(3, k) == -Middle(4, 15 - k)
  {
    RowAt(ROW_3, -3900, -128, k);
  }

  lemma HighRow3(k: nat)
    requires k < 16
    ensures HighTable(3, k) == Middle(4, 15 - k)
  {
    RowAt(ROW_11, 3900, 128, k);
  }

  lemma LowRow4(k: nat)
    requires k < 16
    ensures LowTable(4, k) == -Middle(3, 15 - k)
  {
    RowAt(ROW_4, -1884, -64, k);
  }

  lemma HighRow4(k: nat)
    requires k < 16
    ensures HighTable(4, k) == Middle(3, 15 - k)
  {
    RowAt(ROW_12, 1884, 64, k);
  }

  lemma LowRow5(k: nat)
    requires k < 16
    ensures LowTable(5, k) == -Middle(2, 15 - k)
  {
    RowAt(ROW_5, -876, -32, k);
  }

  lemma HighRow5(k: nat)
    requires k < 16
    ensures HighTable(5, k) == Middle(2, 15 - k)
  {
    RowAt(ROW_13, 876, 32, k);
  }

  lemma LowRow6(k: nat)
    requires k < 16
    ensures LowTable(6, k) == -Middle(1, 15 - k)
  {
    RowAt(ROW_6, -372, -16, k);
  }

  lemma HighRow6(k: nat)
    requires k < 16
    ensures HighTable(6, k) == Middle(1, 15 - k)
  {
    RowAt(ROW_14, 372, 16, k);
  }

  lemma LowRow7(k: nat)
    requires k < 16
    ensures LowTable(7, k) == -Middle(0, 15 - k)
  {
    LastMiddle(k);
    if k < 8 {
      if k == 0 {} else if k == 1 {} else if k == 2 {} else if k == 3 {} else if k == 4 {} else if k == 5 {}
        else if k == 6 {} else {}
    } else {
      if k == 8 {} else if k == 9 {} else if k == 10 {} else if k == 11 {} else if k == 12 {} else if k == 13 {}
        else if k == 14 {} else {}
    }
  }

  lemma LastMiddle(k: nat)
    requires k < 16
    ensures Middle(0, 15 - k) == 120 - 8 * k
  {}

  lemma HighRow7(k: nat)
    requires k < 16
    ensures HighTable(7, k) == Middle(0, 15 - k)
  {
    RowAt(ROW_15, 120, 8, k);
  }

  /** What row `r` and column `k` of the table hold. */
  lemma LowTableAt(r: nat, k: nat)
    requires r < 8 && k < 16
    ensures LowTable(r, k) == -Middle(7 - r, 15 - k)
  {
    if r < 4 {
      if r == 0 { LowRow0(k); } else if r == 1 { LowRow1(k); } else if r == 2 { LowRow2(k); } else { LowRow3(k); }
    } else {
      if r == 4 { LowRow4(k); } else if r == 5 { LowRow5(k); } else if r == 6 { LowRow6(k); } else { LowRow7(k); }
    }
  }

  lemma HighTableAt(r: nat, k: nat)
    requires r < 8 && k < 16
    ensures HighTable(r, k) == Middle(7 - r, 15 - k)
  {
    if r < 4 {
      if r == 0 { HighRow0(k); } else if r == 1 { HighRow1(k); } else if r == 2 { HighRow2(k); } else { HighRow3(k); }
    } else {
      if r == 4 { HighRow4(k); } else if r == 5 { HighRow5(k); } else if r == 6 { HighRow6(k); } else { HighRow7(k); }
    }
  }

  /** Where the interval of a level starts, with the bias. */
  function Lower(level: nat): int {
    (16 + level % 16) * Width(level / 16)
  }

  function Upper(level: nat): int {
    (17 + level % 16) * Width(level / 16)
  }

  /** The value of a level. */
  function ValueOf(level: nat): int {
    Middle(level / 16, level % 16)
  }

  lemma WidthIs(e: nat)
    requires e < 8
    ensures Width(e) == Pow2(e + 3) && 32 * Width(e) - 1 == SEGMENT_ENDS[e]
    ensures (e > 0 ==> 16 * Width(e) - 1 == SEGMENT_ENDS[e - 1])
  {
    assert Pow2(3) == 8 && Pow2(4) == 16 && Pow2(5) == 32 && Pow2(6) == 64;
    assert Pow2(7) == 128 && Pow2(8) == 256 && Pow2(9) == 512 && Pow2(10) == 1024;
    if e < 4 {
      if e == 0 {} else if e == 1 {} else if e == 2 {} else {}
    } else {
      if e == 4 {} else if e == 5 {} else if e == 6 {} else {}
    }
  }

  /** A biased magnitude is in the interval that its level names. */
  lemma LevelOk(biased: Short)
    requires biased >= 128
    ensures Level(biased) < 128 && Lower(Level(biased)) <= biased < Upper(Level(biased))
  {
    var e := Search(biased, 0);
    assert e < 8 by { assert SEGMENT_ENDS[7] == 0x7FFF; }
    WidthIs(e);
    var q := biased / Width(e);
    Quotient(biased, Width(e));
    assert q % 16 == q - 16;
    LevelParts(e, q - 16);
    assert Level(biased) == 16 * e + (q - 16);
  }

  lemma LevelParts(e: nat, m: nat)
    requires e < 8 && m < 16
    ensures (16 * e + m) / 16 == e && (16 * e + m) % 16 == m && 16 * e + m < 128
  {}

  /** One interval ends where the next one starts. */
  lemma NextInterval(level: nat)
    requires level < 127
    ensures Upper(level) == Lower(level + 1)
  {
    var e, m := level / 16, level % 16;
    if m < 15 {
      assert (level + 1) / 16 == e && (level + 1) % 16 == m + 1;
    } else {
      assert (level + 1) / 16 == e + 1 && (level + 1) % 16 == 0;
    }
  }

  lemma {:induction false} IntervalsOrdered(k: nat, l: nat)
    requires k < l < 128
    ensures Upper(k) <= Lower(l)
  {
    NextInterval(l - 1);
    if k < l - 1 {
      IntervalsOrdered(k, l - 1);
      assert Lower(l - 1) <= Upper(l - 1) by { MulMonotone(16 + (l - 1) % 16, 17 + (l - 1) % 16, Width((l - 1) / 16)); }
    }
  }

  lemma ValueInside(level: nat)
    requires level < 128
    ensures 0 <= ValueOf(level) && 128 <= Lower(level) < ValueOf(level) + BIAS < Upper(level) <= 0x8000
    ensures level > 0 ==> ValueOf(level) > 0
    ensures 16 * (Upper(level) - Lower(level)) <= Lower(level)
    ensures 2 * (ValueOf(level) + BIAS) == Lower(level) + Upper(level)
  {
    InsideAt(level / 16, level % 16);
  }

  lemma InsideAt(e: nat, m: nat)
    requires e < 8 && m < 16
    ensures 0 <= Middle(e, m) && 128 <= (16 + m) * Width(e) < Middle(e, m) + BIAS < (17 + m) * Width(e) <= 0x8000
    ensures e > 0 || m > 0 ==> Middle(e, m) > 0
    ensures 16 * ((17 + m) * Width(e) - (16 + m) * Width(e)) <= (16 + m) * Width(e)
    ensures 2 * (Middle(e, m) + BIAS) == (16 + m) * Width(e) + (17 + m) * Width(e)
  {
    if e < 4 {
      if e == 0 {} else if e == 1 {} else if e == 2 {} else {}
    } else {
      if e == 4 {} else if e == 5 {} else if e == 6 {} else {}
    }
  }

  lemma LevelMonotone(x: Short, y: Short)
    requires 128 <= x <= y
    ensures Level(x) < 128 && Level(y) < 128 && ValueOf(Level(x)) <= ValueOf(Level(y))
  {
    LevelOk(x);
    LevelOk(y);
    ValueInside(Level(x));
    ValueInside(Level(y));
    if Level(y) < Level(x) { IntervalsOrdered(Level(y), Level(x)); }
    if Level(x) < Level(y) { IntervalsOrdered(Level(x), Level(y)); }
  }

  lemma LevelOfValue(level: nat)
    requires level < 128
    ensures 132 <= ValueOf(level) + BIAS < 0x8000 && Level(ValueOf(level) + BIAS) == level
  {
    ValueInside(level);
    var v: Short := ValueOf(level) + BIAS;
    LevelOk(v);
    if Level(v) < level { IntervalsOrdered(Level(v), level); }
    if level < Level(v) { IntervalsOrdered(level, Level(v)); }
  }

  // What companding does to a sample, and to a code

  lemma NegativeCode(level: nat)
    requires level < 128
    ensures Decompress(ToByte(127 - level)) == -ValueOf(level)
  {
    var r, k := 7 - level / 16, 15 - level % 16;
    assert Unsigned(ToByte(127 - level)) == 127 - level == 16 * r + k;
    LookUpLow(ToByte(127 - level), r, k);
    LowTableAt(r, k);
  }

  lemma PositiveCode(level: nat)
    requires level < 128
    ensures Decompress(ToByte(255 - level)) == ValueOf(level)
  {
    var r, k := 7 - level / 16, 15 - level % 16;
    assert Unsigned(ToByte(255 - level)) == 255 - level == 16 * (r + 8) + k;
    LookUpHigh(ToByte(255 - level), r, k);
    HighTableAt(r, k);
  }

  lemma LookUpLow(code: Byte, r: nat, k: nat)
    requires r < 8 && k < 16 && Unsigned(code) == 16 * r + k
    ensures Decompress(code) == LowTable(r, k)
  {
    Nibbles(r, k);
  }

  lemma LookUpHigh(code: Byte, r: nat, k: nat)
    requires r < 8 && k < 16 && Unsigned(code) == 16 * (r + 8) + k
    ensures Decompress(code) == HighTable(r, k)
  {
    Nibbles(r + 8, k);
  }

  /** The value that a sample comes back as. */
  function Returned(x: int): int
    requires -LIMIT <= x <= LIMIT
  {
    if x >= 0 then ValueOf(Level(x + BIAS)) else -ValueOf(Level(BIAS - x))
  }

  lemma DecompressCompress(x: Short)
    requires -LIMIT <= x <= LIMIT
    ensures Decompress(Compress(x)) == Returned(x)
  {
    if x >= 0 { PositiveSample(x); } else { NegativeSample(x); }
  }

  lemma PositiveSample(x: Short)
    requires 0 <= x <= LIMIT
    ensures Decompress(Compress(x)) == Returned(x)
  {
    var level := Level(Biased(x));
    LevelOk(Biased(x));
    PositiveCode(level);
    assert Compress(x) == ToByte(255 - level);
  }

  lemma NegativeSample(x: Short)
    requires -LIMIT <= x < 0
    ensures Decompress(Compress(x)) == Returned(x)
  {
    var level := Level(Biased(x));
    LevelOk(Biased(x));
    NegativeCode(level);
    assert Compress(x) == ToByte(127 - level);
  }

  /** Within the samples that can be biased: an error of at most 1/32 of the biased magnitude. */
  lemma Error(x: Short)
    requires -LIMIT <= x <= LIMIT
    ensures 32 * Abs(Decompress(Compress(x)) - x) <= Abs(x) + BIAS
  {
    DecompressCompress(x);
    ReturnedError(x);
  }

  lemma ReturnedError(x: int)
    requires -LIMIT <= x <= LIMIT
    ensures 32 * Abs(Returned(x) - x) <= Abs(x) + BIAS
  {
    var biased: Short := Abs(x) + BIAS;
    LevelOk(biased);
    ValueInside(Level(biased));
    HalfInterval(Lower(Level(biased)), Upper(Level(biased)), ValueOf(Level(biased)) + BIAS, biased);
  }

  /** The middle of an interval is at most 1/32 away from its elements, if these are large enough. */
  lemma HalfInterval(lower: int, upper: int, middle: int, x: int)
    requires lower <= x < upper && 2 * middle == lower + upper && 16 * (upper - lower) <= lower
    ensures 32 * Abs(middle - x) <= x
  {}

  lemma ReturnedMonotone(x: int, y: int)
    requires -LIMIT <= x <= y <= LIMIT
    ensures Returned(x) <= Returned(y)
  {
    if 0 <= x {
      LevelMonotone(x + BIAS, y + BIAS);
    } else if y < 0 {
      LevelMonotone(BIAS - y, BIAS - x);
    } else {
      LevelOk(BIAS - x);
      LevelOk(y + BIAS);
      ValueInside(Level(BIAS - x));
      ValueInside(Level(y + BIAS));
    }
  }

  lemma Monotone(x: Short, y: Short)
    requires -LIMIT <= x <= y <= LIMIT
    ensures Decompress(Compress(x)) <= Decompress(Compress(y))
  {
    DecompressCompress(x);
    DecompressCompress(y);
    ReturnedMonotone(x, y);
  }

  lemma CompressValue(level: nat)
    requires level < 128
    ensures 0 <= ValueOf(level) <= LIMIT
    ensures Compress(ValueOf(level)) == ToByte(255 - level)
    ensures level > 0 ==> Compress(-ValueOf(level)) == ToByte(127 - level)
    ensures level == 0 ==> ValueOf(level) == 0
  {
    LevelOfValue(level);
    ValueInside(level);
    var v := ValueOf(level);
    assert Biased(v) == v + BIAS && (v > 0 ==> Biased(-v) == v + BIAS);
    FirstValue();
  }

  lemma FirstValue()
    ensures ValueOf(0) == 0
  {}

  /** Every code comes back, except that there are two codes for zero. */
  lemma CompressDecompress(code: Byte)
    ensures Compress(Decompress(code)) == if code == 0x7F then -1 else code
  {
    var u := Unsigned(code);
    assert ToByte(u) == code && (code == 0x7F <==> u == 127);
    if u < 128 {
      NegativeCode(127 - u);
      CompressValue(127 - u);
    } else {
      PositiveCode(255 - u);
      CompressValue(255 - u);
    }
  }
}
