/** The SAME header generator (src/header.rs): header and amplitude
    validation, the preamble-plus-header bit stream with the preamble byte
    sent most significant bit first and the header bytes least significant
    bit first, and the three-burst sample layout of section 11.31 of
    47 CFR. The sine itself is an input; everything around it is modelled. */
module SameHeader {
  import opened Wrappers
  import opened Text

  type Byte = bv8

  const MARK_FREQ: real := 2083.3
  const SPACE_FREQ: real := 1562.5
  const MIN_SAMPLE_RATE: nat := 8000
  const PREAMBLE_BYTE: Byte := 0xD5
  const BURST_COUNT: nat := 3
  const PI: real := 3.141592653589793
  const I16_MAX: int := 32767
  const I16_MIN: int := -32768

  datatype HeaderError = InvalidConfig(message: String)

  // --------------------------------------------------------------- validation

  /** validate_header: "NNNN" is accepted outright; otherwise the prefix, the
      trailing hyphen and ASCII are checked in that order. */
  function ValidateHeader(header: String): (r: Result<(), HeaderError>)
    ensures r.Ok? <==> header == "NNNN" || (StartsWith(header, "ZCZC-") && EndsWith(header, "-") && AllAscii(header))
    ensures r.Ok? ==> AllAscii(header)
    ensures header != "NNNN" && !StartsWith(header, "ZCZC-") ==> r == Err(InvalidConfig("Header must start with 'ZCZC-'"))
    ensures header != "NNNN" && StartsWith(header, "ZCZC-") && !EndsWith(header, "-") ==> r == Err(InvalidConfig("Header must end with '-'"))
    ensures header != "NNNN" && StartsWith(header, "ZCZC-") && EndsWith(header, "-") && !AllAscii(header)
            ==> r == Err(InvalidConfig("Header must be ASCII"))
  {
    if header == "NNNN" then Ok(())
    else if !StartsWith(header, "ZCZC-") then Err(InvalidConfig("Header must start with 'ZCZC-'"))
    else if !EndsWith(header, "-") then Err(InvalidConfig("Header must end with '-'"))
    else if !AllAscii(header) then Err(InvalidConfig("Header must be ASCII"))
    else Ok(())
  }

  /** An f64 amplitude: a finite value, or NaN or an infinity. */
  datatype Amplitude = Finite(value: real) | NotFinite

  /** validate_amplitude: finite, and within [0.0, 1.0]. */
  function ValidateAmplitude(amp: Amplitude): (r: Result<(), HeaderError>)
    ensures r.Ok? <==> amp.Finite? && 0.0 <= amp.value <= 1.0
    ensures amp.NotFinite? ==> r == Err(InvalidConfig("Amplitude must be a finite number"))
  {
    match amp
    case NotFinite => Err(InvalidConfig("Amplitude must be a finite number"))
    case Finite(v) =>
      if !(0.0 <= v <= 1.0) then Err(InvalidConfig("Amplitude must be between 0.0 and 1.0")) else Ok(())
  }

  // --------------------------------------------------------------------- bits

  /** Bit `k` of `b`, as `(b >> k) & 1`. */
  function Bit(b: Byte, k: nat): (r: Byte)
    requires k < 8
    ensures r == 0 || r == 1
  {
    (b >> k) & 1
  }

  /** The byte least significant bit first. */
  function LsbBits(b: Byte): (r: seq<Byte>)
    ensures |r| == 8 && forall i :: 0 <= i < 8 ==> r[i] == Bit(b, i)
  {
    seq(8, i requires 0 <= i < 8 => Bit(b, i))
  }

  /** The byte most significant bit first. */
  function MsbBits(b: Byte): (r: seq<Byte>)
    ensures |r| == 8 && forall i :: 0 <= i < 8 ==> r[i] == Bit(b, 7 - i)
  {
    seq(8, i requires 0 <= i < 8 => Bit(b, 7 - i))
  }

  predicate IsBitString(bits: seq<Byte>) { forall i :: 0 <= i < |bits| ==> bits[i] == 0 || bits[i] == 1 }

  /** Reading eight bits least significant first back into a byte. */
  function LsbValue(bits: seq<Byte>): Byte
    requires |bits| == 8 && IsBitString(bits)
  {
    bits[0] | (bits[1] << 1) | (bits[2] << 2) | (bits[3] << 3) | (bits[4] << 4) | (bits[5] << 5) | (bits[6] << 6) | (bits[7] << 7)
  }

  function Reverse(s: seq<Byte>): (r: seq<Byte>)
    ensures |r| == |s| && forall i :: 0 <= i < |s| ==> r[i] == s[|s| - 1 - i]
  {
    seq(|s|, i requires 0 <= i < |s| => s[|s| - 1 - i])
  }

  /** The two orders are reverses of each other. */
  lemma MsbIsReversedLsb(b: Byte)
    ensures MsbBits(b) == Reverse(LsbBits(b)) && LsbBits(b) == Reverse(MsbBits(b))
  {
  }

  /** Both orders decode back to the byte. */
  lemma BitsRoundTrip(b: Byte)
    ensures IsBitString(LsbBits(b)) && LsbValue(LsbBits(b)) == b
    ensures LsbValue(Reverse(MsbBits(b))) == b
  {
    MsbIsReversedLsb(b);
    var l := LsbBits(b);
    assert l[0] == b & 1 && l[1] == (b >> 1) & 1 && l[2] == (b >> 2) & 1 && l[3] == (b >> 3) & 1;
    assert l[4] == (b >> 4) & 1 && l[5] == (b >> 5) & 1 && l[6] == (b >> 6) & 1 && l[7] == (b >> 7) & 1;
    assert (b & 1) | (((b >> 1) & 1) << 1) | (((b >> 2) & 1) << 2) | (((b >> 3) & 1) << 3)
           | (((b >> 4) & 1) << 4) | (((b >> 5) & 1) << 5) | (((b >> 6) & 1) << 6) | (((b >> 7) & 1) << 7) == b;
  }

  /** 0xD5 sent most significant bit first is 0xAB sent least significant bit
      first, the preamble byte of the SAME protocol. */
  lemma PreambleIsAbLsbFirst()
    ensures MsbBits(PREAMBLE_BYTE) == LsbBits(0xAB)
  {
  }

  /** byte_to_bits_msb_first: the loop runs j from 7 down to 0, filling slot 7 - j. */
  method ByteToBitsMsbFirst(b: Byte) returns (bits: seq<Byte>)
    ensures bits == MsbBits(b)
  {
    var a := new Byte[8];
    var j := 8;
    while j > 0
      invariant 0 <= j <= 8
      invariant forall k :: 0 <= k < 8 - j ==> a[k] == Bit(b, 7 - k)
    {
      j := j - 1;
      a[7 - j] := (b >> j) & 1;
    }
    bits := a[..];
  }

  /** byte_to_bits_lsb_first: slot i holds bit i. */
  method ByteToBitsLsbFirst(b: Byte) returns (bits: seq<Byte>)
    ensures bits == LsbBits(b)
  {
    var a := new Byte[8];
    var i := 0;
    while i < 8
      invariant 0 <= i <= 8
      invariant forall k :: 0 <= k < i ==> a[k] == Bit(b, k)
    {
      a[i] := (b >> i) & 1;
      i := i + 1;
    }
    bits := a[..];
  }

  /** The header's bytes, least significant bit first, byte after byte. */
  function HeaderBits(h: seq<Byte>): (r: seq<Byte>)
    ensures |r| == 8 * |h|
  {
    if h == [] then [] else HeaderBits(h[..|h| - 1]) + LsbBits(h[|h| - 1])
  }

  /** Sixteen preamble bytes, then the header. */
  function SameBits(h: seq<Byte>): seq<Byte> {
    Repeat(MsbBits(PREAMBLE_BYTE), 16) + HeaderBits(h)
  }

  /** `k` copies of `block` one after another: the preamble's sixteen bytes
      and the three bursts. */
  function Repeat<T>(block: seq<T>, k: nat): (r: seq<T>)
    ensures |r| == k * |block|
  {
    if k == 0 then [] else Repeat(block, k - 1) + block
  }

  /** Block `i` of the header bits is header byte `i`, least significant first. */
  lemma {:induction false} HeaderBitsBlock(h: seq<Byte>, i: nat)
    requires i < |h|
    ensures HeaderBits(h)[8 * i..8 * i + 8] == LsbBits(h[i])
  {
    var n := |h| - 1;
    assert HeaderBits(h) == HeaderBits(h[..n]) + LsbBits(h[n]);
    if i < n {
      HeaderBitsBlock(h[..n], i);
      assert HeaderBits(h)[8 * i..8 * i + 8] == HeaderBits(h[..n])[8 * i..8 * i + 8];
    }
  }

  lemma {:induction false} RepeatBlock(block: seq<Byte>, k: nat, i: nat)
    requires |block| == 8 && i < k
    ensures Repeat(block, k)[8 * i..8 * i + 8] == block
  {
    assert Repeat(block, k) == Repeat(block, k - 1) + block;
    if i < k - 1 {
      RepeatBlock(block, k - 1, i);
      assert Repeat(block, k)[8 * i..8 * i + 8] == Repeat(block, k - 1)[8 * i..8 * i + 8];
    }
  }

  /** The layout of build_same_bits: (16 + n) * 8 bits, sixteen preamble
      blocks, then block 16 + i is header byte i least significant bit first. */
  lemma SameBitsLayout(h: seq<Byte>)
    ensures |SameBits(h)| == (16 + |h|) * 8
    ensures forall i :: 0 <= i < 16 ==> SameBits(h)[8 * i..8 * i + 8] == MsbBits(PREAMBLE_BYTE)
    ensures forall i :: 0 <= i < |h| ==> SameBits(h)[8 * (16 + i)..8 * (16 + i) + 8] == LsbBits(h[i])
    ensures IsBitString(SameBits(h))
  {
    SameBitsPreamble(h);
    SameBitsHeader(h);
    SameBitsAreBits(h);
  }

  lemma SameBitsPreamble(h: seq<Byte>)
    ensures forall i :: 0 <= i < 16 ==> SameBits(h)[8 * i..8 * i + 8] == MsbBits(PREAMBLE_BYTE)
  {
    var pre := Repeat(MsbBits(PREAMBLE_BYTE), 16);
    forall i | 0 <= i < 16 ensures SameBits(h)[8 * i..8 * i + 8] == MsbBits(PREAMBLE_BYTE) {
      RepeatBlock(MsbBits(PREAMBLE_BYTE), 16, i);
      assert SameBits(h)[8 * i..8 * i + 8] == pre[8 * i..8 * i + 8];
    }
  }

  lemma SameBitsHeader(h: seq<Byte>)
    ensures forall i :: 0 <= i < |h| ==> SameBits(h)[8 * (16 + i)..8 * (16 + i) + 8] == LsbBits(h[i])
  {
    forall i | 0 <= i < |h| ensures SameBits(h)[8 * (16 + i)..8 * (16 + i) + 8] == LsbBits(h[i]) {
      HeaderBitsBlock(h, i);
      assert SameBits(h)[8 * (16 + i)..8 * (16 + i) + 8] == HeaderBits(h)[8 * i..8 * i + 8];
    }
  }

  lemma SameBitsAreBits(h: seq<Byte>)
    ensures IsBitString(SameBits(h))
  {
    RepeatAreBits(MsbBits(PREAMBLE_BYTE), 16);
    HeaderBitsAreBits(h);
  }

  lemma {:induction false} RepeatAreBits(block: seq<Byte>, k: nat)
    requires IsBitString(block)
    ensures IsBitString(Repeat(block, k))
  {
    if k > 0 {
      RepeatAreBits(block, k - 1);
    }
  }

  lemma {:induction false} HeaderBitsAreBits(h: seq<Byte>)
    ensures IsBitString(HeaderBits(h))
  {
    if h != [] {
      HeaderBitsAreBits(h[..|h| - 1]);
    }
  }

  /** build_same_bits: sixteen preamble bytes, then the header bytes. */
  method BuildSameBits(h: seq<Byte>) returns (bits: seq<Byte>)
    ensures bits == SameBits(h)
  {
    bits := [];
    var p := 0;
    while p < 16
      invariant 0 <= p <= 16
      invariant bits == Repeat(MsbBits(PREAMBLE_BYTE), p)
    {
      var block := ByteToBitsMsbFirst(PREAMBLE_BYTE);
      bits := bits + block;
      p := p + 1;
    }
    var i := 0;
    while i < |h|
      invariant 0 <= i <= |h|
      invariant bits == Repeat(MsbBits(PREAMBLE_BYTE), 16) + HeaderBits(h[..i])
    {
      assert h[..i + 1][..i] == h[..i];
      var block := ByteToBitsLsbFirst(h[i]);
      bits := bits + block;
      i := i + 1;
    }
    assert h[..i] == h;
  }

  /** header.as_bytes() for an ASCII header. */
  function AsciiBytes(s: String): (r: seq<Byte>)
    requires AllAscii(s)
    ensures |r| == |s| && forall i :: 0 <= i < |s| ==> r[i] as int == s[i] as int
  {
    seq(|s|, i requires 0 <= i < |s| => AsciiByte(s[i]))
  }

  function AsciiByte(c: char): (b: Byte)
    requires IsAscii(c)
    ensures b as int == c as int
  {
    c as Byte
  }

  // ------------------------------------------------------------------ samples

  function EffectiveRate(sr: nat): (r: nat)
    ensures r >= MIN_SAMPLE_RATE && r >= sr && (r == sr || r == MIN_SAMPLE_RATE)
  {
    if sr > MIN_SAMPLE_RATE then sr else MIN_SAMPLE_RATE
  }

  /** floor(sr * 0.00192), in exact decimal arithmetic; the source then raises
      results below 1 to 1, which cannot happen at 8000 Hz and up. */
  function SamplesPerBit(rate: nat): (spb: nat)
    requires rate >= MIN_SAMPLE_RATE
    ensures spb >= 15
    ensures spb * 100000 <= rate * 192 < (spb + 1) * 100000
  {
    rate * 192 / 100000
  }

  /** `v as i16` for a value already clamped to the i16 range: truncation toward zero. */
  function TruncateToInt(v: real): (r: int)
    ensures v >= 0.0 ==> 0.0 <= r as real <= v && v < r as real + 1.0
    ensures v < 0.0 ==> v <= r as real <= 0.0 && r as real - 1.0 < v
  {
    if v >= 0.0 then v.Floor else -((-v).Floor)
  }

  function Clamp(v: real, lo: real, hi: real): (r: real)
    requires lo <= hi
    ensures lo <= r <= hi
    ensures lo <= v <= hi ==> r == v
    ensures v < lo ==> r == lo
    ensures v > hi ==> r == hi
  {
    if v < lo then lo else if v > hi then hi else v
  }

  /** The clamp to the i16 range followed by the `as i16` cast. */
  function ToI16(v: real): (r: int)
    ensures I16_MIN <= r <= I16_MAX
    ensures I16_MIN as real <= v <= I16_MAX as real && v >= 0.0 ==> 0.0 <= r as real <= v < r as real + 1.0
    ensures I16_MIN as real <= v <= I16_MAX as real && v < 0.0 ==> r as real - 1.0 < v <= r as real <= 0.0
    ensures v < I16_MIN as real ==> r == I16_MIN
    ensures v > I16_MAX as real ==> r == I16_MAX
  {
    TruncateToInt(Clamp(v, I16_MIN as real, I16_MAX as real))
  }

  /** The scaled sample `i` of a tone cycle. */
  function ToneSample(freq: real, rate: nat, amp: real, sine: real -> real, i: nat): real
    requires rate > 0
  {
    sine(2.0 * PI * freq * (i as real / rate as real)) * amp * I16_MAX as real
  }

  /** make_tone_cycle: `spb` samples of amp * sin(2 pi f i / sr), scaled to the
      i16 range, clamped and truncated. The sine is the floating-point one
      and is taken as an input. */
  function ToneCycle(freq: real, rate: nat, spb: nat, amp: real, sine: real -> real): (r: seq<int>)
    requires rate > 0
    ensures |r| == spb
    ensures forall i :: 0 <= i < spb ==> r[i] == ToI16(ToneSample(freq, rate, amp, sine, i))
  {
    seq(spb, i requires 0 <= i < spb => ToI16(ToneSample(freq, rate, amp, sine, i)))
  }

  /** At amplitude zero every tone sample is zero, whatever the sine gives. */
  lemma SilentAtZeroAmplitude(freq: real, rate: nat, spb: nat, sine: real -> real)
    requires rate > 0
    ensures forall i :: 0 <= i < spb ==> ToneCycle(freq, rate, spb, 0.0, sine)[i] == 0
  {
    forall i | 0 <= i < spb ensures ToneCycle(freq, rate, spb, 0.0, sine)[i] == 0 {
      assert ToneSample(freq, rate, 0.0, sine, i) == 0.0;
    }
  }

  /** With a sine bounded by one, samples never exceed amp * 32767 in size. */
  lemma ToneWithinAmplitude(freq: real, rate: nat, spb: nat, amp: real, sine: real -> real)
    requires rate > 0 && 0.0 <= amp <= 1.0
    requires forall x :: -1.0 <= sine(x) <= 1.0
    ensures forall i :: 0 <= i < spb ==> -(amp * 32767.0) <= ToneCycle(freq, rate, spb, amp, sine)[i] as real <= amp * 32767.0
  {
    forall i | 0 <= i < spb
      ensures -(amp * 32767.0) <= ToneCycle(freq, rate, spb, amp, sine)[i] as real <= amp * 32767.0
    {
      var x := 2.0 * PI * freq * (i as real / rate as real);
      var y := sine(x);
      assert -1.0 <= y <= 1.0;
      assert (1.0 - y) * amp >= 0.0 && (1.0 + y) * amp >= 0.0;
      assert -amp <= y * amp <= amp;
      var v := ToneSample(freq, rate, amp, sine, i);
      assert v == y * amp * 32767.0;
      assert -(amp * 32767.0) <= v <= amp * 32767.0;
    }
  }

  /** One burst's tone: a mark cycle for every 1 bit, a space cycle for every 0. */
  function BurstTone(bits: seq<Byte>, mark: seq<int>, space: seq<int>): seq<int> {
    if bits == [] then []
    else BurstTone(bits[..|bits| - 1], mark, space) + (if bits[|bits| - 1] == 1 then mark else space)
  }

  lemma {:induction false} BurstToneLength(bits: seq<Byte>, mark: seq<int>, space: seq<int>)
    requires |mark| == |space|
    ensures |BurstTone(bits, mark, space)| == |bits| * |mark|
  {
    if bits != [] {
      var n := |bits| - 1;
      BurstToneLength(bits[..n], mark, space);
      assert |BurstTone(bits, mark, space)| == n * |mark| + |mark|;
      assert n * |mark| + |mark| == (n + 1) * |mark|;
    }
  }

  function Zeros(n: nat): (r: seq<int>)
    ensures |r| == n && forall i :: 0 <= i < n ==> r[i] == 0
  {
    seq(n, i => 0)
  }


  /** The samples generate_same_header_samples returns for a valid header and amplitude. */
  function SameSamples(header: String, sr: nat, amp: real, sine: real -> real): (r: seq<int>)
    requires AllAscii(header)
    ensures |r| % 3 == 0 && |r| / 3 >= EffectiveRate(sr)
    ensures var l := |r| / 3; r[..l] == r[l..2 * l] && r[2 * l..] == r[..l]
    ensures var l := |r| / 3; forall i :: l - EffectiveRate(sr) <= i < l ==> r[i] == 0
  {
    var rate := EffectiveRate(sr);
    var spb := SamplesPerBit(rate);
    var bits := SameBits(AsciiBytes(header));
    var mark := ToneCycle(MARK_FREQ, rate, spb, amp, sine);
    var space := ToneCycle(SPACE_FREQ, rate, spb, amp, sine);
    var burst := BurstTone(bits, mark, space) + Zeros(rate);
    RepeatThree(burst);
    Repeat(burst, BURST_COUNT)
  }

  /** Three repetitions of a block are the block written out three times. */
  lemma RepeatThree<T>(block: seq<T>)
    ensures var r := Repeat(block, 3); var l := |block|;
            r == block + block + block && |r| / 3 == l
            && r[..l] == block && r[l..2 * l] == block && r[2 * l..] == block
  {
    assert Repeat(block, 1) == block;
    assert Repeat(block, 3) == block + block + block;
    var r := block + block + block;
    var l := |block|;
    assert r[..l] == block;
    assert r[l..2 * l] == block;
    assert r[2 * l..] == block;
  }

  /** Three bursts, each `bits * samples_per_bit` tone samples and one second
      of silence. */
  lemma {:induction false} SameSamplesLength(header: String, sr: nat, amp: real, sine: real -> real)
    requires AllAscii(header)
    ensures var rate := EffectiveRate(sr);
            |SameSamples(header, sr, amp, sine)| == 3 * ((16 + |header|) * 8 * SamplesPerBit(rate) + rate)
  {
    var rate := EffectiveRate(sr);
    var spb := SamplesPerBit(rate);
    var bits := SameBits(AsciiBytes(header));
    SameBitsLayout(AsciiBytes(header));
    BurstToneLength(bits, ToneCycle(MARK_FREQ, rate, spb, amp, sine), ToneCycle(SPACE_FREQ, rate, spb, amp, sine));
  }

  /** The inner loop: a mark or a space cycle per bit. */
  method EmitTone(bits: seq<Byte>, mark: seq<int>, space: seq<int>) returns (out: seq<int>)
    ensures out == BurstTone(bits, mark, space)
  {
    out := [];
    var k := 0;
    while k < |bits|
      invariant 0 <= k <= |bits|
      invariant out == BurstTone(bits[..k], mark, space)
    {
      assert bits[..k + 1][..k] == bits[..k];
      if bits[k] == 1 {
        out := out + mark;
      } else {
        out := out + space;
      }
      k := k + 1;
    }
    assert bits[..k] == bits;
  }

  /** The outer loop: BURST_COUNT bursts, each the tone then the silence. */
  method EmitBursts(bits: seq<Byte>, mark: seq<int>, space: seq<int>, silence: seq<int>) returns (out: seq<int>)
    ensures out == Repeat(BurstTone(bits, mark, space) + silence, BURST_COUNT)
  {
    out := [];
    var b := 0;
    while b < BURST_COUNT
      invariant 0 <= b <= BURST_COUNT
      invariant out == Repeat(BurstTone(bits, mark, space) + silence, b)
    {
      var tone := EmitTone(bits, mark, space);
      out := out + tone + silence;
      b := b + 1;
    }
  }

  /** generate_same_header_samples. */
  method GenerateSameHeaderSamples(header: String, sr: nat, amp: Amplitude, sine: real -> real)
    returns (r: Result<seq<int>, HeaderError>)
    ensures ValidateHeader(header).Err? ==> r == Err(ValidateHeader(header).error)
    ensures ValidateHeader(header).Ok? && ValidateAmplitude(amp).Err? ==> r == Err(ValidateAmplitude(amp).error)
    ensures r.Ok? <==> ValidateHeader(header).Ok? && ValidateAmplitude(amp).Ok?
    ensures r.Ok? ==> AllAscii(header) && r.value == SameSamples(header, sr, amp.value, sine)
  {
    var vh := ValidateHeader(header);
    if vh.Err? {
      return Err(vh.error);
    }
    var va := ValidateAmplitude(amp);
    if va.Err? {
      return Err(va.error);
    }
    var rate := EffectiveRate(sr);
    var bits := BuildSameBits(AsciiBytes(header));
    var spb := SamplesPerBit(rate);
    var mark := ToneCycle(MARK_FREQ, rate, spb, amp.value, sine);
    var space := ToneCycle(SPACE_FREQ, rate, spb, amp.value, sine);
    var out := EmitBursts(bits, mark, space, Zeros(rate));
    return Ok(out);
  }
}
