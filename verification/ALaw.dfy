/** A-law, section 3 of ITU-T G.711. */
module ALaw {
  import opened Samples

  const CLIP := 32635

  // The segment of a magnitude, by its upper seven bits, in rows of sixteen.
  const LOW_SEGMENTS: seq<nat> := [1, 1, 2, 2, 3, 3, 3, 3, 4, 4, 4, 4, 4, 4, 4, 4]
  const SEGMENTS_5: seq<nat> := [5, 5, 5, 5, 5, 5, 5, 5, 5, 5, 5, 5, 5, 5, 5, 5]
  const SEGMENTS_6: seq<nat> := [6, 6, 6, 6, 6, 6, 6, 6, 6, 6, 6, 6, 6, 6, 6, 6]
  const SEGMENTS_7: seq<nat> := [7, 7, 7, 7, 7, 7, 7, 7, 7, 7, 7, 7, 7, 7, 7, 7]

  function Segment(h: nat): nat
    requires h < 128
  {
    match h / 16
    case 0 => LOW_SEGMENTS[h % 16]
    case 1 => SEGMENTS_5[h % 16]
    case 2 => SEGMENTS_6[h % 16]
    case 3 => SEGMENTS_6[h % 16]
    case _ => SEGMENTS_7[h % 16]
  }

  // The table of the decoder, in rows of sixteen.
  const ROW_0: seq<Short> := [-5504, -5248, -6016, -5760, -4480, -4224, -4992, -4736, -7552, -7296, -8064, -7808,
                              -6528, -6272, -7040, -6784]
  const ROW_1: seq<Short> := [-2752, -2624, -3008, -2880, -2240, -2112, -2496, -2368, -3776, -3648, -4032, -3904,
                              -3264, -3136, -3520, -3392]
  const ROW_2: seq<Short> := [-22016, -20992, -24064, -23040, -17920, -16896, -19968, -18944, -30208, -29184, -32256,
                              -31232, -26112, -25088, -28160, -27136]
  const ROW_3: seq<Short> := [-11008, -10496, -12032, -11520, -8960, -8448, -9984, -9472, -15104, -14592, -16128,
                              -15616, -13056, -12544, -14080, -13568]
  const ROW_4: seq<Short> := [-344, -328, -376, -360, -280, -264, -312, -296, -472, -456, -504, -488, -408, -392,
                              -440, -424]
  const ROW_5: seq<Short> := [-88, -72, -120, -104, -24, -8, -56, -40, -216, -200, -248, -232, -152, -136, -184, -168]
  const ROW_6: seq<Short> := [-1376, -1312, -1504, -1440, -1120, -1056, -1248, -1184, -1888, -1824, -2016, -1952,
                              -1632, -1568, -1760, -1696]
  const ROW_7: seq<Short> := [-688, -656, -752, -720, -560, -528, -624, -592, -944, -912, -1008, -976, -816, -784,
                              -880, -848]
  const ROW_8: seq<Short> := [5504, 5248, 6016, 5760, 4480, 4224, 4992, 4736, 7552, 7296, 8064, 7808, 6528, 6272,
                              7040, 6784]
  const ROW_9: seq<Short> := [2752, 2624, 3008, 2880, 2240, 2112, 2496, 2368, 3776, 3648, 4032, 3904, 3264, 3136,
                              3520, 3392]
  const ROW_10: seq<Short> := [22016, 20992, 24064, 23040, 17920, 16896, 19968, 18944, 30208, 29184, 32256, 31232,
                               26112, 25088, 28160, 27136]
  const ROW_11: seq<Short> := [11008, 10496, 12032, 11520, 8960, 8448, 9984, 9472, 15104, 14592, 16128, 15616, 13056,
                               12544, 14080, 13568]
  const ROW_12: seq<Short> := [344, 328, 376, 360, 280, 264, 312, 296, 472, 456, 504, 488, 408, 392, 440, 424]
  const ROW_13: seq<Short> := [88, 72, 120, 104, 24, 8, 56, 40, 216, 200, 248, 232, 152, 136, 184, 168]
  const ROW_14: seq<Short> := [1376, 1312, 1504, 1440, 1120, 1056, 1248, 1184, 1888, 1824, 2016, 1952, 1632, 1568,
                               1760, 1696]
  const ROW_15: seq<Short> := [688, 656, 752, 720, 560, 528, 624, 592, 944, 912, 1008, 976, 816, 784, 880, 848]

  function LowTable(r: nat, k: nat): Short
    requires r < 8 && k < 16
  {
    match r
    case 0 => ROW_0[k]
    case 1 => ROW_1[k]
    case 2 => ROW_2[k]
    case 3 => ROW_3[k]
    case 4 => ROW_4[k]
    case 5 => ROW_5[k]
    case 6 => ROW_6[k]
    case _ => ROW_7[k]
  }

  function HighTable(r: nat, k: nat): Short
    requires r < 8 && k < 16
  {
    match r
    case 0 => ROW_8[k]
    case 1 => ROW_9[k]
    case 2 => ROW_10[k]
    case 3 => ROW_11[k]
    case 4 => ROW_12[k]
    case 5 => ROW_13[k]
    case 6 => ROW_14[k]
    case _ => ROW_15[k]
  }

  function Decompress(code: Byte): Short {
    var u := Unsigned(code);
    if u < 128 then LowTable(u / 16, u % 16) else HighTable(u / 16 - 8, u % 16)
  }

  /** The value in the middle of an interval: segment `e`, interval `m`. */
  function Middle(e: nat, m: nat): int {
    if e == 0 then 16 * m + 8 else (16 * m + 264) * Pow2(e - 1)
  }

  /** A row of the table: evenly spaced values, in the order in which `^ 5` puts them. */
  predicate RowIs(row: seq<int>, base: int, step: int) {
    |row| == 16 &&
    row[0] == base + 5 * step && row[1] == base + 4 * step && row[2] == base + 7 * step && row[3] == base + 6 * step &&
    row[4] == base + 1 * step && row[5] == base + 0 * step && row[6] == base + 3 * step && row[7] == base + 2 * step &&
    row[8] == base + 13 * step && row[9] == base + 12 * step && row[10] == base + 15 * step
      && row[11] == base + 14 * step &&
    row[12] == base + 9 * step && row[13] == base + 8 * step && row[14] == base + 11 * step
      && row[15] == base + 10 * step
  }

  /** Segment `e` has the magnitudes from `Start(e)` on, in intervals of this width. */
  function Width(e: nat): int {
    if e <= 1 then 16 else if e == 2 then 32 else if e == 3 then 64 else if e == 4 then 128
    else if e == 5 then 256 else if e == 6 then 512 else 1024
  }

  function Start(e: nat): int {
    if e == 0 then 0 else 16 * Width(e)
  }

  /** The middle of the first interval. */
  function Base(e: nat): int {
    Start(e) + Width(e) / 2
  }

  lemma MiddleIs(e: nat, m: nat)
    requires e < 8
    ensures Middle(e, m) == Base(e) + m * Width(e)
  {
    assert Pow2(0) == 1 && Pow2(1) == 2 && Pow2(2) == 4 && Pow2(3) == 8;
    assert Pow2(4) == 16 && Pow2(5) == 32 && Pow2(6) == 64;
    if e < 4 {
      if e == 0 {} else if e == 1 {} else if e == 2 {} else {}
    } else {
      if e == 4 {} else if e == 5 {} else if e == 6 {} else {}
    }
  }

  lemma FlipTable()
    ensures Flip(0) == 5 && Flip(1) == 4 && Flip(2) == 7 && Flip(3) == 6 && Flip(4) == 1 && Flip(5) == 0
    ensures Flip(6) == 3 && Flip(7) == 2
    ensures Flip(8) == 13 && Flip(9) == 12 && Flip(10) == 15 && Flip(11) == 14 && Flip(12) == 9 && Flip(13) == 8
    ensures Flip(14) == 11 && Flip(15) == 10
  {}

  lemma RowAt(row: seq<int>, base: int, step: int, k: nat)
    requires RowIs(row, base, step) && k < 16
    ensures row[k] == base + Flip(k) * step
  {
    FlipTable();
    if k < 8 {
      if k == 0 {} else if k == 1 {} else if k == 2 {} else if k == 3 {} else if k == 4 {} else if k == 5 {}
        else if k == 6 {} else {}
    } else {
      if k == 8 {} else if k == 9 {} else if k == 10 {} else if k == 11 {} else if k == 12 {} else if k == 13 {}
        else if k == 14 {} else {}
    }
  }

  lemma LowRow0(k: nat)
    requires k < 16
    ensures LowTable(0, k) == -Middle(5, Flip(k))
  {
    RowAt(ROW_0, -4224, -256, k);
    FlipTwice(k);
    MiddleIs(5, Flip(k));
  }

  lemma HighRow0(k: nat)
    requires k < 16
    ensures HighTable(0, k) == Middle(5, Flip(k))
  {
    RowAt(ROW_8, 4224, 256, k);
    FlipTwice(k);
    MiddleIs(5, Flip(k));
  }

  lemma LowRow1(k: nat)
    requires k < 16
    ensures LowTable(1, k) == -Middle(4, Flip(k))
  {
    RowAt(ROW_1, -2112, -128, k);
    FlipTwice(k);
    MiddleIs(4, Flip(k));
  }

  lemma HighRow1(k: nat)
    requires k < 16
    ensures HighTable(1, k) == Middle(4, Flip(k))
  {
    RowAt(ROW_9, 2112, 128, k);
    FlipTwice(k);
    MiddleIs(4, Flip(k));
  }

  lemma LowRow2(k: nat)
    requires k < 16
    ensures LowTable(2, k) == -Middle(7, Flip(k))
  {
    RowAt(ROW_2, -16896, -1024, k);
    FlipTwice(k);
    MiddleIs(7, Flip(k));
  }

  lemma HighRow2(k: nat)
    requires k < 16
    ensures HighTable(2, k) == Middle(7, Flip(k))
  {
    RowAt(ROW_10, 16896, 1024, k);
    FlipTwice(k);
    MiddleIs(7, Flip(k));
  }

  lemma LowRow3(k: nat)
    requires k < 16
    ensures LowTable(3, k) == -Middle(6, Flip(k))
  {
    RowAt(ROW_3, -8448, -512, k);
    FlipTwice(k);
    MiddleIs(6, Flip(k));
  }

  lemma HighRow3(k: nat)
    requires k < 16
    ensures HighTable(3, k) == Middle(6, Flip(k))
  {
    RowAt(ROW_11, 8448, 512, k);
    FlipTwice(k);
    MiddleIs(6, Flip(k));
  }

  lemma LowRow4(k: nat)
    requires k < 16
    ensures LowTable(4, k) == -Middle(1, Flip(k))
  {
    RowAt(ROW_4, -264, -16, k);
    FlipTwice(k);
    MiddleIs(1, Flip(k));
  }

  lemma HighRow4(k: nat)
    requires k < 16
    ensures HighTable(4, k) == Middle(1, Flip(k))
  {
    RowAt(ROW_12, 264, 16, k);
    FlipTwice(k);
    MiddleIs(1, Flip(k));
  }

  lemma LowRow5(k: nat)
    requires k < 16
    ensures LowTable(5, k) == -Middle(0, Flip(k))
  {
    RowAt(ROW_5, -8, -16, k);
    FlipTwice(k);
    MiddleIs(0, Flip(k));
  }

  lemma HighRow5(k: nat)
    requires k < 16
    ensures HighTable(5, k) == Middle(0, Flip(k))
  {
    RowAt(ROW_13, 8, 16, k);
    FlipTwice(k);
    MiddleIs(0, Flip(k));
  }

  lemma LowRow6(k: nat)
    requires k < 16
    ensures LowTable(6, k) == -Middle(3, Flip(k))
  {
    RowAt(ROW_6, -1056, -64, k);
    FlipTwice(k);
    MiddleIs(3, Flip(k));
  }

  lemma HighRow6(k: nat)
    requires k < 16
    ensures HighTable(6, k) == Middle(3, Flip(k))
  {
    RowAt(ROW_14, 1056, 64, k);
    FlipTwice(k);
    MiddleIs(3, Flip(k));
  }

  lemma LowRow7(k: nat)
    requires k < 16
    ensures LowTable(7, k) == -Middle(2, Flip(k))
  {
    RowAt(ROW_7, -528, -32, k);
    FlipTwice(k);
    MiddleIs(2, Flip(k));
  }

  lemma HighRow7(k: nat)
    requires k < 16
    ensures HighTable(7, k) == Middle(2, Flip(k))
  {
    RowAt(ROW_15, 528, 32, k);
    FlipTwice(k);
    MiddleIs(2, Flip(k));
  }

  /** What row `r` and column `k` of the table hold. */
  lemma LowTableAt(r: nat, k: nat)
    requires r < 8 && k < 16
    ensures Flip(r) < 8 && LowTable(r, k) == -Middle(Flip(r), Flip(k))
  {
    FlipTable();
    if r < 4 {
      if r == 0 { LowRow0(k); } else if r == 1 { LowRow1(k); } else if r == 2 { LowRow2(k); } else { LowRow3(k); }
    } else {
      if r == 4 { LowRow4(k); } else if r == 5 { LowRow5(k); } else if r == 6 { LowRow6(k); } else { LowRow7(k); }
    }
  }

  lemma HighTableAt(r: nat, k: nat)
    requires r < 8 && k < 16
    ensures Flip(r) < 8 && HighTable(r, k) == Middle(Flip(r), Flip(k))
  {
    FlipTable();
    if r < 4 {
      if r == 0 { HighRow0(k); } else if r == 1 { HighRow1(k); } else if r == 2 { HighRow2(k); } else { HighRow3(k); }
    } else {
      if r == 4 { HighRow4(k); } else if r == 5 { HighRow5(k); } else if r == 6 { HighRow6(k); } else { HighRow7(k); }
    }
  }

  // Compression

  lemma WidthIs(e: nat)
    requires 1 <= e < 8
    ensures Width(e) == Pow2(e + 3) && Start(e) == Pow2(e + 7)
  {
    assert Pow2(4) == 16 && Pow2(5) == 32 && Pow2(6) == 64 && Pow2(7) == 128 && Pow2(8) == 256 && Pow2(9) == 512
      && Pow2(10) == 1024;
    assert Pow2(11) == 2048 && Pow2(12) == 4096 && Pow2(13) == 8192 && Pow2(14) == 16384;
    if e < 4 {
      if e == 0 {} else if e == 1 {} else if e == 2 {} else {}
    } else {
      if e == 4 {} else if e == 5 {} else if e == 6 {} else {}
    }
  }

  lemma SegmentOk(h: nat)
    requires 1 <= h < 128
    ensures 1 <= Segment(h) < 8 && Start(Segment(h)) <= 256 * h < 2 * Start(Segment(h))
  {
    if h / 16 == 0 {
      if h < 8 {
        if h == 0 {} else if h == 1 {} else if h == 2 {} else if h == 3 {} else if h == 4 {} else if h == 5 {}
          else if h == 6 {} else {}
      } else {
        if h == 8 {} else if h == 9 {} else if h == 10 {} else if h == 11 {} else if h == 12 {} else if h == 13 {}
          else if h == 14 {} else {}
      }
    }
  }

  /** The seven bits for a magnitude: clipped, then segment and interval. */
  function Level(x: nat): (level: nat)
    requires x < 0x8000
    ensures level < 128
  {
    var c := if x > CLIP then CLIP else x;
    if c >= 256 then
      SegmentOk(c / 256);
      var e := Segment(c / 256);
      16 * e + c / Pow2(e + 3) % 16
    else c / 16
  }

  /** The magnitude is in the interval that its level names. */
  lemma LevelOk(x: nat)
    requires x < 0x8000
    ensures var e, m, c := Level(x) / 16, Level(x) % 16, if x > CLIP then CLIP else x;
      Start(e) + m * Width(e) <= c < Start(e) + (m + 1) * Width(e)
  {
    var c := if x > CLIP then CLIP else x;
    if c >= 256 {
      LargeLevel(c);
      assert Level(x) == 16 * Segment(c / 256) + c / Pow2(Segment(c / 256) + 3) % 16;
    } else {
      SmallLevel(c);
      assert Level(x) == c / 16;
    }
  }

  lemma LargeLevel(c: nat)
    requires 256 <= c <= CLIP
    ensures var e := Segment(c / 256);
      var m := c / Pow2(e + 3) % 16;
      (16 * e + m) / 16 == e && (16 * e + m) % 16 == m && Start(e) + m * Width(e) <= c < Start(e) + (m + 1) * Width(e)
  {
    var e := Segment(c / 256);
    SegmentOk(c / 256);
    WidthIs(e);
    InSegment(c, e);
  }

  lemma SmallLevel(c: nat)
    requires c < 256
    ensures c / 16 < 16 && c / 16 / 16 == 0 && c / 16 % 16 == c / 16 && 16 * (c / 16) <= c < 16 * (c / 16 + 1)
  {}

  lemma InSegment(c: nat, e: nat)
    requires 1 <= e < 8 && Start(e) <= 256 * (c / 256) && c < 2 * Start(e)
    ensures var m := c / Width(e) % 16;
      (16 * e + m) / 16 == e && (16 * e + m) % 16 == m && Start(e) + m * Width(e) <= c < Start(e) + (m + 1) * Width(e)
  {
    var w := Width(e);
    var q := c / w;
    Quotient(c, w);
    assert q % 16 == q - 16;
    assert (q - 16) * w == q * w - 16 * w && (q - 15) * w == (q + 1) * w - 16 * w;
  }

  /** `linearToALawSample`: sign bit, segment and interval, with `^ 0x55`. Negating the least short
      leaves it as it is, and its upper bits are cut off. */
  function Compress(sample: Short): Byte {
    var level := if sample == -0x8000 then 0 else Level(Abs(sample));
    ToByte(Xor55(level + if sample >= 0 then 128 else 0))
  }

  /** The value of a level. */
  function ValueOf(level: nat): int {
    Middle(level / 16, level % 16)
  }

  /** What a code stands for. */
  lemma DecompressMeans(code: Byte)
    ensures var x := Xor55(Unsigned(code)); x < 256 && Decompress(code) == if x >= 128 then ValueOf(x - 128)
      else -ValueOf(x)
  {
    var u := Unsigned(code);
    if u < 128 { LowCode(code, u / 16, u % 16); } else { HighCode(code, u / 16 - 8, u % 16); }
  }

  lemma LowCode(code: Byte, r: nat, k: nat)
    requires Unsigned(code) < 128 && r == Unsigned(code) / 16 && k == Unsigned(code) % 16
    ensures var x := Xor55(Unsigned(code)); x < 128 && Decompress(code) == -ValueOf(x)
  {
    NegativeCode(code, r, k);
    assert Unsigned(code) == 16 * r + k;
  }

  lemma HighCode(code: Byte, r: nat, k: nat)
    requires Unsigned(code) >= 128 && r == Unsigned(code) / 16 - 8 && k == Unsigned(code) % 16
    ensures var x := Xor55(Unsigned(code)); 128 <= x < 256 && Decompress(code) == ValueOf(x - 128)
  {
    PositiveCode(code, r, k);
    assert Unsigned(code) == 16 * (r + 8) + k;
  }

  lemma NegativeCode(code: Byte, r: nat, k: nat)
    requires r < 8 && k < 16 && Unsigned(code) == 16 * r + k
    ensures var x := Xor55(16 * r + k); x < 128 && Decompress(code) == -ValueOf(x)
  {
    LookUpLow(code, r, k);
    LowTableAt(r, k);
    FlipTwice(k);
    Nibbles(Flip(r), Flip(k));
    Xor55Of(r, k);
  }

  lemma PositiveCode(code: Byte, r: nat, k: nat)
    requires r < 8 && k < 16 && Unsigned(code) == 16 * (r + 8) + k
    ensures var x := Xor55(16 * (r + 8) + k); 128 <= x < 256 && Decompress(code) == ValueOf(x - 128)
  {
    LookUpHigh(code, r, k);
    HighTableAt(r, k);
    FlipTwice(k);
    FlipKeepsTop(r);
    Nibbles(Flip(r), Flip(k));
    Xor55Of(r + 8, k);
    assert Xor55(16 * (r + 8) + k) - 128 == 16 * Flip(r) + Flip(k);
  }

  lemma LookUpLow(code: Byte, r: nat, k: nat)
    requires r < 8 && k < 16 && Unsigned(code) == 16 * r + k
    ensures Decompress(code) == LowTable(r, k)
  {
    Nibbles(r, k);
  }

  lemma LookUpHigh(code: Byte, r: nat, k: nat)
    requires r < 8 && k < 16 && Unsigned(code) == 16 * (r + 8) + k
    ensures Decompress(code) == HighTable(r, k)
  {
    Nibbles(r + 8, k);
  }

  lemma UnsignedToByte(x: nat)
    requires x < 256
    ensures Unsigned(ToByte(x)) == x
  {}

  /** A sample comes back as the middle of its interval, with its sign. */
  lemma DecompressCompress(x: Short)
    requires x != -0x8000
    ensures Decompress(Compress(x)) == if x >= 0 then ValueOf(Level(Abs(x))) else -ValueOf(Level(Abs(x)))
  {
    var level := Level(Abs(x));
    LevelOk(Abs(x));
    var y := level + if x >= 0 then 128 else 0;
    Xor55Twice(y);
    UnsignedToByte(Xor55(y));
    DecompressMeans(Compress(x));
  }

  /** The error is at most half an interval. */
  lemma LevelError(x: nat)
    requires x < 0x8000
    ensures ValueOf(Level(x)) > 0
    ensures 32 * Abs(ValueOf(Level(x)) - x) <= 256 || 32 * Abs(ValueOf(Level(x)) - x) <= x
  {
    LevelOk(x);
    var e, m := Level(x) / 16, Level(x) % 16;
    MiddleIs(e, m);
    ErrorIn(e, m, if x > CLIP then CLIP else x, x);
  }

  lemma ErrorIn(e: nat, m: nat, c: nat, x: nat)
    requires e < 8 && m < 16 && (if x > CLIP then c == CLIP && x < 0x8000 else c == x)
    requires Start(e) + m * Width(e) <= c < Start(e) + (m + 1) * Width(e)
    ensures var v := Base(e) + m * Width(e);
      v > 0 && (32 * Abs(v - x) <= 256 || 32 * Abs(v - x) <= x)
  {
    if e < 4 {
      if e == 0 {} else if e == 1 {} else if e == 2 {} else {}
    } else {
      if e == 4 {} else if e == 5 {} else if e == 6 {} else {}
    }
  }

  /** Where the interval of a level starts. */
  function Lower(level: nat): int {
    Start(level / 16) + level % 16 * Width(level / 16)
  }

  function Upper(level: nat): int {
    Lower(level) + Width(level / 16)
  }

  /** One interval ends where the next one starts. */
  lemma NextInterval(level: nat)
    requires level < 127
    ensures Upper(level) == Lower(level + 1)
  {
    var e, m := level / 16, level % 16;
    if m < 15 {
      assert (level + 1) / 16 == e && (level + 1) % 16 == m + 1;
      assert (m + 1) * Width(e) == m * Width(e) + Width(e);
    } else {
      assert (level + 1) / 16 == e + 1 && (level + 1) % 16 == 0;
    }
  }

  lemma {:induction false} IntervalsOrdered(k: nat, l: nat)
    requires k < l < 128
    ensures Upper(k) <= Lower(l)
  {
    NextInterval(l - 1);
    if k < l - 1 { IntervalsOrdered(k, l - 1); }
  }

  lemma ValueInside(level: nat)
    requires level < 128
    ensures 0 <= Lower(level) < ValueOf(level) < Upper(level) <= 0x8000
  {
    var e, m := level / 16, level % 16;
    MiddleIs(e, m);
    InsideAt(e, m);
  }

  lemma InsideAt(e: nat, m: nat)
    requires e < 8 && m < 16
    ensures 0 <= Start(e) + m * Width(e) && Start(e) + m * Width(e) + Width(e) <= 0x8000
    ensures Start(e) + m * Width(e) < Base(e) + m * Width(e) < Start(e) + m * Width(e) + Width(e)
  {
    if e < 4 {
      if e == 0 {} else if e == 1 {} else if e == 2 {} else {}
    } else {
      if e == 4 {} else if e == 5 {} else if e == 6 {} else {}
    }
  }

  lemma LevelMonotone(x: nat, y: nat)
    requires x <= y < 0x8000
    ensures Level(x) <= Level(y) && ValueOf(Level(x)) <= ValueOf(Level(y))
  {
    LevelOk(x);
    LevelOk(y);
    UpperIs(Level(x));
    UpperIs(Level(y));
    if Level(y) < Level(x) { IntervalsOrdered(Level(y), Level(x)); }
    if Level(x) < Level(y) {
      IntervalsOrdered(Level(x), Level(y));
      ValueInside(Level(x));
      ValueInside(Level(y));
    }
  }

  lemma UpperIs(level: nat)
    ensures Upper(level) == Start(level / 16) + (level % 16 + 1) * Width(level / 16)
  {
    assert (level % 16 + 1) * Width(level / 16) == level % 16 * Width(level / 16) + Width(level / 16);
  }

  /** The value of a level has that level. */
  lemma LevelOfValue(level: nat)
    requires level < 128
    ensures 0 < ValueOf(level) < 0x8000 && Level(ValueOf(level)) == level
  {
    ValueInside(level);
    var v := ValueOf(level);
    NotClipped(level);
    LevelOk(v);
    UpperIs(Level(v));
    if Level(v) < level { IntervalsOrdered(Level(v), level); }
    if level < Level(v) { IntervalsOrdered(level, Level(v)); }
  }

  lemma NotClipped(level: nat)
    requires level < 128
    ensures ValueOf(level) <= CLIP
  {
    MiddleIs(7, 15);
    if level < 127 {
      ValueInside(level);
      ValueInside(127);
      IntervalsOrdered(level, 127);
    }
  }

  // What companding does to a sample, and to a code

  /** Within the samples that can be negated: an error of at most 8, or 1/32 of the sample. */
  lemma Error(x: Short)
    requires x != -0x8000
    ensures 32 * Abs(Decompress(Compress(x)) - x) <= 256 || 32 * Abs(Decompress(Compress(x)) - x) <= Abs(x)
  {
    DecompressCompress(x);
    LevelError(Abs(x));
  }

  /** The value that a sample comes back as. */
  function Returned(x: int): int
    requires -0x8000 < x < 0x8000
  {
    if x >= 0 then ValueOf(Level(x)) else -ValueOf(Level(-x))
  }

  lemma ReturnedMonotone(x: int, y: int)
    requires -0x8000 < x <= y < 0x8000
    ensures Returned(x) <= Returned(y)
  {
    if 0 <= x {
      LevelMonotone(x, y);
    } else if y < 0 {
      LevelMonotone(-y, -x);
    } else {
      ValueInside(Level(-x));
      ValueInside(Level(y));
    }
  }

  lemma Monotone(x: Short, y: Short)
    requires -0x8000 < x <= y
    ensures Decompress(Compress(x)) <= Decompress(Compress(y))
  {
    DecompressCompress(x);
    DecompressCompress(y);
    ReturnedMonotone(x, y);
  }

  /** The code of the value of a level. */
  lemma CompressValue(level: nat)
    requires level < 128
    ensures 0 < ValueOf(level) < 0x8000
    ensures Compress(ValueOf(level)) == ToByte(Xor55(level + 128)) && Compress(-ValueOf(level)) == ToByte(Xor55(level))
  {
    LevelOfValue(level);
  }

  lemma ByteOfUnsigned(b: Byte)
    ensures ToByte(Unsigned(b)) == b
  {}

  /** Every code comes back. */
  lemma CompressDecompress(code: Byte)
    ensures Compress(Decompress(code)) == code
  {
    var x := Xor55(Unsigned(code));
    Xor55Twice(Unsigned(code));
    ByteOfUnsigned(code);
    DecompressMeans(code);
    CompressValue(if x >= 128 then x - 128 else x);
  }

  /** The only sample that goes wrong: it comes back as a small negative number. */
  lemma LeastSampleLost()
    ensures Decompress(Compress(-0x8000)) == -8
  {
    assert Xor55(0) == 85;
    LeastCode();
    Xor55Twice(0);
    DecompressMeans(85);
    MiddleIs(0, 0);
  }

  lemma LeastCode()
    ensures Compress(-0x8000) == 85
  {
    assert Xor55(0) == 85;
  }
}
