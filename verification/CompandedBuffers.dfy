/** The encoders and decoders on whole buffers, two bytes for a sample and one for a code. */
module CompandedBuffers {
  import opened Samples
  import ALaw
  import MuLaw

  function Encoded(compress: Short -> Byte, media: seq<Byte>): seq<Byte> {
    seq<Byte>(|media| / 2, i requires 0 <= i < |media| / 2 => compress(SampleAt(media, i)))
  }

  function Decoded(decompress: Byte -> Short, codes: seq<Byte>): seq<Byte> {
    seq<Byte>(2 * |codes|, i requires 0 <= i < 2 * |codes| =>
      if i % 2 == 0 then LowByte(decompress(codes[i / 2])) else HighByte(decompress(codes[i / 2])))
  }

  lemma DecodedBytes(decompress: Byte -> Short, codes: seq<Byte>, i: nat)
    requires i < |codes|
    ensures var r := Decoded(decompress, codes);
      |r| == 2 * |codes| && r[2 * i] == LowByte(decompress(codes[i])) && r[2 * i + 1] == HighByte(decompress(codes[i]))
  {
    assert (2 * i) / 2 == i && (2 * i + 1) / 2 == i && (2 * i) % 2 == 0 && (2 * i + 1) % 2 == 1;
  }

  lemma DecodedSample(decompress: Byte -> Short, codes: seq<Byte>, i: nat)
    requires i < |codes|
    ensures SampleAt(Decoded(decompress, codes), i) == decompress(codes[i])
  {
    DecodedBytes(decompress, codes, i);
    SampleOfBytes(decompress(codes[i]));
  }

  /** A sample is two bytes of the buffer, the lower half of its bits first. */
  lemma LowerHalfFirst(compress: Short -> Byte, media: seq<Byte>, i: nat)
    requires 2 * i + 1 < |media|
    ensures var low: int, high: int := media[2 * i], media[2 * i + 1];
      var sample := (if low < 0 then low + 256 else low) + 256 * high;
      -0x8000 <= sample < 0x8000 && Encoded(compress, media)[i] == compress(sample)
  {
    assert SampleAt(media, i) == SampleOf(media[2 * i], media[2 * i + 1]);
  }

  lemma LowerHalfFirstAgain(decompress: Byte -> Short, codes: seq<Byte>, i: nat)
    requires i < |codes|
    ensures var r := Decoded(decompress, codes);
      |r| == 2 * |codes| &&
      var low: int, high: int := r[2 * i], r[2 * i + 1];
      (if low < 0 then low + 256 else low) + 256 * high == decompress(codes[i])
  {
    DecodedSample(decompress, codes, i);
  }

  /** Decoding and encoding again, code by code. */
  lemma EncodedDecoded(compress: Short -> Byte, decompress: Byte -> Short, codes: seq<Byte>)
    ensures var r := Encoded(compress, Decoded(decompress, codes));
      |r| == |codes| && forall i | 0 <= i < |codes| :: r[i] == compress(decompress(codes[i]))
  {
    forall i | 0 <= i < |codes|
      ensures Encoded(compress, Decoded(decompress, codes))[i] == compress(decompress(codes[i]))
    {
      DecodedSample(decompress, codes, i);
    }
  }

  /** Encoding and decoding again, sample by sample; an odd byte at the end is lost. */
  lemma DecodedEncoded(compress: Short -> Byte, decompress: Byte -> Short, media: seq<Byte>)
    ensures var r := Decoded(decompress, Encoded(compress, media));
      |r| == |media| - |media| % 2 && forall i | 0 <= i < |media| / 2 ::
        SampleAt(r, i) == decompress(compress(SampleAt(media, i)))
  {
    forall i | 0 <= i < |media| / 2
      ensures SampleAt(Decoded(decompress, Encoded(compress, media)), i) == decompress(compress(SampleAt(media, i)))
    {
      DecodedSample(decompress, Encoded(compress, media), i);
    }
  }

  /** A-law keeps every buffer of samples within its error bound and in its order. */
  lemma ALawBuffer(media: seq<Byte>)
    requires |media| % 2 == 0 && forall i | 0 <= i < |media| / 2 :: SampleAt(media, i) != -0x8000
    ensures var r := Decoded(ALaw.Decompress, Encoded(ALaw.Compress, media));
      && |r| == |media|
      && (forall i {:trigger SampleAt(r, i)} | 0 <= i < |media| / 2 ::
            || 32 * Abs(SampleAt(r, i) - SampleAt(media, i)) <= 256
            || 32 * Abs(SampleAt(r, i) - SampleAt(media, i)) <= Abs(SampleAt(media, i)))
      && (forall i, j {:trigger SampleAt(r, i), SampleAt(r, j)} | 0 <= i < |media| / 2 && 0 <= j < |media| / 2 ::
            SampleAt(media, i) <= SampleAt(media, j) ==> SampleAt(r, i) <= SampleAt(r, j))
  {
    DecodedEncoded(ALaw.Compress, ALaw.Decompress, media);
    forall i | 0 <= i < |media| / 2 ensures
      var x := SampleAt(media, i);
      || 32 * Abs(ALaw.Decompress(ALaw.Compress(x)) - x) <= 256
      || 32 * Abs(ALaw.Decompress(ALaw.Compress(x)) - x) <= Abs(x)
    {
      ALaw.Error(SampleAt(media, i));
    }
    forall i, j | 0 <= i < |media| / 2 && 0 <= j < |media| / 2 && SampleAt(media, i) <= SampleAt(media, j)
      ensures ALaw.Decompress(ALaw.Compress(SampleAt(media, i))) <= ALaw.Decompress(ALaw.Compress(SampleAt(media, j)))
    {
      ALaw.Monotone(SampleAt(media, i), SampleAt(media, j));
    }
  }

  /** Every buffer of A-law codes comes back unchanged. */
  lemma ALawCodes(codes: seq<Byte>)
    ensures Encoded(ALaw.Compress, Decoded(ALaw.Decompress, codes)) == codes
  {
    EncodedDecoded(ALaw.Compress, ALaw.Decompress, codes);
    forall i | 0 <= i < |codes| ensures ALaw.Compress(ALaw.Decompress(codes[i])) == codes[i] {
      ALaw.CompressDecompress(codes[i]);
    }
  }

  /** The same for mu-law, for samples to which the bias can be added. */
  lemma MuLawBuffer(media: seq<Byte>)
    requires |media| % 2 == 0 && forall i | 0 <= i < |media| / 2 :: -MuLaw.LIMIT <= SampleAt(media, i) <= MuLaw.LIMIT
    ensures var r := Decoded(MuLaw.Decompress, Encoded(MuLaw.Compress, media));
      && |r| == |media|
      && (forall i {:trigger SampleAt(r, i)} | 0 <= i < |media| / 2 ::
            32 * Abs(SampleAt(r, i) - SampleAt(media, i)) <= Abs(SampleAt(media, i)) + 132)
      && (forall i, j {:trigger SampleAt(r, i), SampleAt(r, j)} | 0 <= i < |media| / 2 && 0 <= j < |media| / 2 ::
            SampleAt(media, i) <= SampleAt(media, j) ==> SampleAt(r, i) <= SampleAt(r, j))
  {
    DecodedEncoded(MuLaw.Compress, MuLaw.Decompress, media);
    forall i | 0 <= i < |media| / 2 ensures
      var x := SampleAt(media, i);
      32 * Abs(MuLaw.Decompress(MuLaw.Compress(x)) - x) <= Abs(x) + 132
    {
      MuLaw.Error(SampleAt(media, i));
    }
    forall i, j | 0 <= i < |media| / 2 && 0 <= j < |media| / 2 && SampleAt(media, i) <= SampleAt(media, j)
      ensures
        MuLaw.Decompress(MuLaw.Compress(SampleAt(media, i))) <= MuLaw.Decompress(MuLaw.Compress(SampleAt(media, j)))
    {
      MuLaw.Monotone(SampleAt(media, i), SampleAt(media, j));
    }
  }

  /** Every buffer of mu-law codes comes back, with 0x7F turned into 0xFF. */
  lemma MuLawCodes(codes: seq<Byte>)
    ensures var r := Encoded(MuLaw.Compress, Decoded(MuLaw.Decompress, codes));
      |r| == |codes| && forall i | 0 <= i < |codes| :: r[i] == if codes[i] == 0x7F then -1 else codes[i]
  {
    EncodedDecoded(MuLaw.Compress, MuLaw.Decompress, codes);
    forall i | 0 <= i < |codes|
      ensures MuLaw.Compress(MuLaw.Decompress(codes[i])) == if codes[i] == 0x7F then -1 else codes[i]
    {
      MuLaw.CompressDecompress(codes[i]);
    }
  }

  /** `linearToALawSample`, step by step */
  method LinearToALawSample(linear: Short) returns (code: Byte)
    ensures code == ALaw.Compress(linear)
  {
    var sample: int := linear;
    var sign := if sample >= 0 then 0x80 else 0;
    if sign != 0x80 {
      sample := if sample == -0x8000 then sample else -sample;
    }
    if sample > ALaw.CLIP {
      sample := ALaw.CLIP;
    }
    var s := ALawBits(sample);
    code := ToByte(Xor55(s % 256 + sign));
  }

  /** Segment and interval of a clipped magnitude. */
  method ALawBits(sample: int) returns (s: int)
    requires sample == -0x8000 || 0 <= sample <= ALaw.CLIP
    ensures s % 256 == if sample == -0x8000 then 0 else ALaw.Level(sample)
  {
    if sample >= 256 {
      assert sample / 256 % 128 == sample / 256;
      var exponent := ALaw.Segment(sample / 256 % 128);
      var mantissa := sample / Pow2(exponent + 3) % 16;
      s := 16 * exponent + mantissa;
    } else {
      s := sample / 16;
    }
  }

  /** `linear2ulaw`, step by step */
  method LinearToMuLaw(linear: Short) returns (code: Byte)
    ensures code == MuLaw.Compress(linear)
  {
    var mask, val;
    if linear < 0 {
      val := MuLaw.ToShort(MuLaw.BIAS - linear);
      mask := 0x7F;
    } else {
      val := MuLaw.ToShort(linear + MuLaw.BIAS);
      mask := 0xFF;
    }
    var seg := Search(val);
    if seg >= 8 {
      code := ToByte(mask - 0x7F);
    } else {
      var uval := 16 * seg + val / Pow2(seg + 3) % 16;
      code := ToByte(mask - uval);
    }
  }

  method Search(val: int) returns (i: nat)
    ensures i == MuLaw.Search(val, 0)
  {
    i := 0;
    while i < 8
      invariant 0 <= i <= 8 && MuLaw.Search(val, i) == MuLaw.Search(val, 0)
    {
      if val <= MuLaw.SEGMENT_ENDS[i] { return; }
      i := i + 1;
    }
  }

  /** `PcmaEncoder.process` */
  method EncodeALaw(media: array<Byte>) returns (compressed: array<Byte>)
    ensures fresh(compressed) && compressed[..] == Encoded(ALaw.Compress, media[..])
  {
    compressed := new Byte[media.Length / 2](_ => 0);
    var j := 0;
    ghost var samples := media[..];
    ghost var goal := Encoded(ALaw.Compress, samples);
    for i := 0 to compressed.Length
      invariant j == 2 * i && media[..] == samples && forall k | 0 <= k < i :: compressed[k] == goal[k]
    {
      var sample := SampleOf(media[j], media[j + 1]);
      assert sample == SampleAt(samples, i);
      j := j + 2;
      compressed[i] := ALawCode(sample, samples, i);
    }
    assert compressed[..] == goal;
  }

  method ALawCode(sample: Short, ghost samples: seq<Byte>, ghost i: nat) returns (code: Byte)
    requires 2 * i + 1 < |samples| && sample == SampleAt(samples, i)
    ensures code == Encoded(ALaw.Compress, samples)[i]
  {
    code := LinearToALawSample(sample);
  }

  /** `PcmuEncoder.process` */
  method EncodeMuLaw(media: array<Byte>) returns (compressed: array<Byte>)
    ensures fresh(compressed) && compressed[..] == Encoded(MuLaw.Compress, media[..])
  {
    compressed := new Byte[media.Length / 2](_ => 0);
    var j := 0;
    ghost var samples := media[..];
    ghost var goal := Encoded(MuLaw.Compress, samples);
    for i := 0 to compressed.Length
      invariant j == 2 * i && media[..] == samples && forall k | 0 <= k < i :: compressed[k] == goal[k]
    {
      var sample := SampleOf(media[j], media[j + 1]);
      assert sample == SampleAt(samples, i);
      j := j + 2;
      compressed[i] := MuLawCode(sample, samples, i);
    }
    assert compressed[..] == goal;
  }

  method MuLawCode(sample: Short, ghost samples: seq<Byte>, ghost i: nat) returns (code: Byte)
    requires 2 * i + 1 < |samples| && sample == SampleAt(samples, i)
    ensures code == Encoded(MuLaw.Compress, samples)[i]
  {
    code := LinearToMuLaw(sample);
  }

  /** `PcmaDecoder.process` */
  method DecodeALaw(media: array<Byte>) returns (res: array<Byte>)
    ensures fresh(res) && res[..] == Decoded(ALaw.Decompress, media[..])
  {
    res := new Byte[media.Length * 2](_ => 0);
    var j := 0;
    var codes := media[..];
    ghost var goal := Decoded(ALaw.Decompress, codes);
    for i := 0 to media.Length
      invariant j == 2 * i && media[..] == codes && forall k | 0 <= k < j :: res[k] == goal[k]
    {
      res[j], res[j + 1] := ALawBytes(codes, i);
      j := j + 2;
    }
    assert res[..] == goal;
  }

  method ALawBytes(codes: seq<Byte>, i: nat) returns (low: Byte, high: Byte)
    requires i < |codes|
    ensures var r := Decoded(ALaw.Decompress, codes); |r| == 2 * |codes| && low == r[2 * i] && high == r[2 * i + 1]
  {
    var s := ALaw.Decompress(codes[i]);
    DecodedBytes(ALaw.Decompress, codes, i);
    low, high := LowByte(s), HighByte(s);
  }

  /** `PcmuDecoder.process` */
  method DecodeMuLaw(media: array<Byte>) returns (res: array<Byte>)
    ensures fresh(res) && res[..] == Decoded(MuLaw.Decompress, media[..])
  {
    res := new Byte[media.Length * 2](_ => 0);
    var j := 0;
    var codes := media[..];
    ghost var goal := Decoded(MuLaw.Decompress, codes);
    for i := 0 to media.Length
      invariant j == 2 * i && media[..] == codes && forall k | 0 <= k < j :: res[k] == goal[k]
    {
      res[j], res[j + 1] := MuLawBytes(codes, i);
      j := j + 2;
    }
    assert res[..] == goal;
  }

  method MuLawBytes(codes: seq<Byte>, i: nat) returns (low: Byte, high: Byte)
    requires i < |codes|
    ensures var r := Decoded(MuLaw.Decompress, codes); |r| == 2 * |codes| && low == r[2 * i] && high == r[2 * i + 1]
  {
    var s := MuLaw.Decompress(codes[i]);
    DecodedBytes(MuLaw.Decompress, codes, i);
    low, high := LowByte(s), HighByte(s);
  }
}
