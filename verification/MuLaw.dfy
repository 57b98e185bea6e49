/**
 The G.711 mu-law codec (section 3 of ITU-T G.711) as `vobiz_codec.py` builds it, with shifts
 and masks written as multiplication, division and remainder.
 */
module MuLaw {

  type Byte = b: int | 0 <= b < 256

  type Sample = x: int | -32768 <= x < 32768

  function Pow2(n: nat): (p: nat)
    ensures p >= 1
  {
    if n == 0 then 1 else 2 * Pow2(n - 1)
  }

  const BIAS := 33

  const CLIP := 8158

  /** The three fields of a complemented mu-law byte. */
  datatype Fields = Fields(negative: bool, segment: nat, mantissa: nat) {
    predicate Valid() { segment < 8 && mantissa < 16 }
  }

  /** `~byte & 0xFF` taken apart: sign bit, three segment bits, four mantissa bits. */
  function Unpack(b: Byte): (f: Fields)
    ensures f.Valid()
  {
    var u := 255 - b;
    Fields(u / 128 == 1, u % 128 / 16, u % 16)
  }

  function Pack(f: Fields): Byte
    requires f.Valid()
  {
    255 - ((if f.negative then 128 else 0) + 16 * f.segment + f.mantissa)
  }

  /** The 14-bit magnitude of a code: `(((mant << 1) | 0x21) << exp) - 33`; the or-ed bits are disjoint. */
  function Level(segment: nat, mantissa: nat): int {
    (2 * mantissa + BIAS) * Pow2(segment) - BIAS
  }

  /** An entry of the decode table. */
  function Decode(b: Byte): (x: Sample)
  {
    var f := Unpack(b);
    LevelBounds(f.segment, f.mantissa);
    var lin16 := 4 * Level(f.segment, f.mantissa);
    if f.negative then -lin16 else lin16
  }

  /** `bit_length(biased) - 6`: the segment whose range holds a biased magnitude. */
  function SegmentOf(biased: int): (e: nat)
    requires 33 <= biased <= 8191
    ensures e < 8 && 32 * Pow2(e) <= biased < 64 * Pow2(e)
  {
    PowersToSeven();
    if biased < 64 then 0 else if biased < 128 then 1 else if biased < 256 then 2
    else if biased < 512 then 3 else if biased < 1024 then 4 else if biased < 2048 then 5
    else if biased < 4096 then 6 else 7
  }

  /** The 14-bit magnitude of a sample: floor division by 4, absolute value, clipped. */
  function Magnitude(x: Sample): (m: nat)
    ensures m <= CLIP
  {
    var t := x / 4;
    var a := if t < 0 then -t else t;
    if a <= CLIP then a else CLIP
  }

  function Quantize(x: Sample): (f: Fields)
    ensures f.Valid()
  {
    var biased := Magnitude(x) + BIAS;
    var e := SegmentOf(biased);
    Fields(x / 4 < 0, e, biased / (2 * Pow2(e)) % 16)
  }

  /** An entry of the encode table. */
  function Encode(x: Sample): Byte {
    Pack(Quantize(x))
  }

  lemma PowersToSeven()
    ensures Pow2(0) == 1 && Pow2(1) == 2 && Pow2(2) == 4 && Pow2(3) == 8
    ensures Pow2(4) == 16 && Pow2(5) == 32 && Pow2(6) == 64 && Pow2(7) == 128
  {
  }

  lemma LevelBounds(segment: nat, mantissa: nat)
    requires segment < 8 && mantissa < 16
    ensures 0 <= Level(segment, mantissa) <= 8031
  {
    PowersToSeven();
  }

  lemma PackUnpack(b: Byte)
    ensures Pack(Unpack(b)) == b
  {
  }

  lemma UnpackPack(f: Fields)
    requires f.Valid()
    ensures Unpack(Pack(f)) == f
  {
    var low := 16 * f.segment + f.mantissa;
    assert low / 16 == f.segment && low % 16 == f.mantissa && low < 128;
    var u := (if f.negative then 128 else 0) + low;
    assert u % 128 == low && u % 16 == f.mantissa;
  }

  // ---------------------------------------------------------------- quantization

  /** The level that a magnitude is quantized to. */
  function Quantized(m: nat): int
    requires m <= CLIP
  {
    var e := SegmentOf(m + BIAS);
    Level(e, (m + BIAS) / (2 * Pow2(e)) % 16)
  }

  lemma DivUnique(a: int, d: int, q: int, r: int)
    requires 0 <= r < d && a == d * q + r
    ensures a / d == q
  {
    var k := a / d - q;
    assert a == d * (a / d) + a % d;
    assert d * k == r - a % d;
    AtLeastOneStep(d, k);
  }

  lemma AtLeastOneStep(d: int, k: int)
    requires d > 0
    ensures k >= 1 ==> d * k >= d
    ensures k <= -1 ==> d * k <= -d
  {
  }

  lemma MiddleOf(mantissa: int, p: int)
    ensures (2 * mantissa + BIAS) * p == (2 * p) * (mantissa + 16) + p
    ensures (2 * mantissa + BIAS) * p == 2 * (mantissa + 16) * p + p
  {
    var n := 2 * (mantissa + 16);
    assert (n + 1) * p == n * p + p;
    assert n * p == (2 * p) * (mantissa + 16);
  }

  lemma Cell(biased: int, p: nat)
    requires p >= 1 && 32 * p <= biased < 64 * p
    ensures var q := biased / (2 * p);
            16 <= q < 32 && 2 * q * p <= biased < 2 * q * p + 2 * p
  {
    var d := 2 * p;
    var q := biased / d;
    assert biased == d * q + biased % d;
    assert d * q == 2 * q * p;
    if q < 16 {
      Scale(q + 1, 16, p);
    } else if q >= 32 {
      Scale(32, q, p);
    }
  }

  /** A level is the middle of its cell, whose half width is the step of the segment. */
  lemma CellAt(biased: int, e: nat)
    requires 33 <= biased <= 8191 && e == SegmentOf(biased)
    ensures var p := Pow2(e);
            var q := biased / (2 * p);
            16 <= q < 32 && 2 * q * p <= biased < 2 * q * p + 2 * p
            && Level(e, q % 16) + BIAS == 2 * q * p + p
  {
    var p := Pow2(e);
    Cell(biased, p);
    var q := biased / (2 * p);
    assert q % 16 == q - 16;
    MiddleOf(q - 16, p);
  }

  lemma QuantizedIsNear(m: nat)
    requires m <= CLIP
    ensures var p := Pow2(SegmentOf(m + BIAS));
            Quantized(m) - p <= m < Quantized(m) + p
  {
    CellAt(m + BIAS, SegmentOf(m + BIAS));
  }

  lemma SegmentMonotone(a: int, b: int)
    requires 33 <= a <= b <= 8191
    ensures SegmentOf(a) <= SegmentOf(b)
    ensures SegmentOf(a) < SegmentOf(b) ==> 2 * Pow2(SegmentOf(a)) <= Pow2(SegmentOf(b))
  {
    PowersToSeven();
  }

  lemma QuantizedMonotone(m: nat, n: nat)
    requires m <= n <= CLIP
    ensures Quantized(m) <= Quantized(n)
  {
    var e, f := SegmentOf(m + BIAS), SegmentOf(n + BIAS);
    CellAt(m + BIAS, e);
    CellAt(n + BIAS, f);
    SegmentMonotone(m + BIAS, n + BIAS);
    var p, q, r := Pow2(e), (m + BIAS) / (2 * Pow2(e)), (n + BIAS) / (2 * Pow2(f));
    if e == f {
      SameSegment(p, q, r, m + BIAS, n + BIAS);
    } else {
      assert Quantized(m) + BIAS < 64 * p by {
        Scale(q, 31, p);
      }
      assert 32 * Pow2(f) <= Quantized(n) + BIAS by {
        Scale(16, r, Pow2(f));
      }
    }
  }

  lemma Scale(a: int, b: int, p: nat)
    requires a <= b
    ensures a * p <= b * p && 2 * a * p == 2 * (a * p) && 2 * b * p == 2 * (b * p)
  {
  }

  lemma SameSegment(p: nat, q: int, r: int, a: int, b: int)
    requires p >= 1 && a <= b
    requires 2 * q * p <= a && b < 2 * r * p + 2 * p
    ensures 2 * q * p + p <= 2 * r * p + p
  {
    if q > r {
      Scale(r + 1, q, p);
    }
  }

  // ---------------------------------------------------------------- what encode-then-decode does

  lemma DecodeEncode(x: Sample)
    ensures Decode(Encode(x)) == (if x < 0 then -4 * Quantized(Magnitude(x)) else 4 * Quantized(Magnitude(x)))
    ensures 0 <= Quantized(Magnitude(x)) <= 8031
  {
    UnpackPack(Quantize(x));
    var f := Quantize(x);
    LevelBounds(f.segment, f.mantissa);
  }

  /** Encode-then-decode never swaps two samples. */
  lemma Monotone(x: Sample, y: Sample)
    requires x <= y
    ensures Decode(Encode(x)) <= Decode(Encode(y))
  {
    DecodeEncode(x);
    DecodeEncode(y);
    if x < 0 && y < 0 {
      QuantizedMonotone(Magnitude(y), Magnitude(x));
    } else if 0 <= x {
      QuantizedMonotone(Magnitude(x), Magnitude(y));
    }
  }

  function Abs(n: int): nat { if n < 0 then -n else n }

  /** The three segment bits of a complemented byte. */
  function SegmentBits(b: Byte): (e: nat)
    ensures e < 8
  {
    (255 - b) % 128 / 16
  }

  // ---------------------------------------------------------------- which byte stands for which sample

  /** The positive half of the code: segment and mantissa count down from 0xFF. */
  lemma DecodeLaw(e: nat, m: nat)
    requires e < 8 && m < 16
    ensures Decode(0xFF - 16 * e - m) == 4 * ((2 * m + 33) * Pow2(e) - 33)
  {
    var f := Fields(false, e, m);
    DecodePacked(f);
    assert Pack(f) == 0xFF - 16 * e - m;
    LevelIs(e, m);
  }

  lemma DecodePacked(f: Fields)
    requires f.Valid()
    ensures Decode(Pack(f)) == if f.negative then -4 * Level(f.segment, f.mantissa) else 4 * Level(f.segment, f.mantissa)
  {
    UnpackPack(f);
  }

  lemma LevelIs(e: nat, m: nat)
    ensures Level(e, m) == (2 * m + 33) * Pow2(e) - 33
  {
  }

  /** The negative half mirrors it. */
  lemma DecodeNegates(b: Byte)
    requires b >= 0x80
    ensures Decode(b - 0x80) == -Decode(b)
  {
    var f := Unpack(b);
    PackUnpack(b);
    UnpackPack(f.(negative := true));
    assert b - 0x80 == Pack(f.(negative := true));
  }

  lemma LevelRises(e: nat, m: nat, e': nat, m': nat)
    requires e < 8 && m < 16 && e' < 8 && m' < 16 && (e < e' || (e == e' && m < m'))
    ensures Level(e, m) < Level(e', m')
  {
    var p, p' := Pow2(e), Pow2(e');
    if e == e' {
      Scale(2 * m + 34, 2 * m' + 33, p);
      assert (2 * m + 34) * p == (2 * m + 33) * p + p;
    } else {
      PowersToSeven();
      assert 2 * p <= p';
      Scale(2 * m + 33, 63, p);
      Scale(33, 2 * m' + 33, p');
    }
  }

  /** Over the positive half, a greater byte stands for a smaller sample. */
  lemma DecodeFalls(a: Byte, b: Byte)
    requires 0x80 <= a < b
    ensures Decode(b) < Decode(a)
  {
    var f, g := Unpack(a), Unpack(b);
    PackUnpack(a);
    PackUnpack(b);
    LevelRises(g.segment, g.mantissa, f.segment, f.mantissa);
  }

  lemma SignBit(x: Sample)
    ensures Encode(x) >= 0x80 <==> x >= 0
  {
  }

  /** Encoding follows the order of the samples: downward over the positive half, upward over the negative one. */
  lemma EncodeOrder(x: Sample, y: Sample)
    requires x <= y
    ensures 0 <= x ==> 0x80 <= Encode(y) <= Encode(x)
    ensures y < 0 ==> Encode(x) <= Encode(y) < 0x80
  {
    Monotone(x, y);
    SignBit(x);
    SignBit(y);
    var a, b := Encode(x), Encode(y);
    if 0 <= x && a < b {
      DecodeFalls(a, b);
    }
    if y < 0 && b < a {
      DecodeNegates(a + 0x80);
      DecodeNegates(b + 0x80);
      DecodeFalls(b + 0x80, a + 0x80);
    }
  }

  /**
   The error bound of segment e, 4 * 2^e + 3, holds exactly up to magnitude 32639; beyond it the
   clipping of the encoder shows.
   */
  lemma ErrorBoundIff(x: Sample)
    ensures Abs(Decode(Encode(x)) - x) <= 4 * Pow2(SegmentBits(Encode(x))) + 3 <==> Abs(x) <= 32639
  {
    UnpackPack(Quantize(x));
    assert SegmentBits(Encode(x)) == Quantize(x).segment;
    DecodeEncode(x);
    var m := Magnitude(x);
    QuantizedIsNear(m);
    if Abs(x / 4) > CLIP {
      PowersToSeven();
      assert SegmentOf(m + BIAS) == 7 && Quantized(m) == 8031;
    }
  }

  /** A code survives decoding and encoding, but for negative zero, which becomes positive zero. */
  lemma CodeRoundTrip(b: Byte)
    ensures Encode(Decode(b)) == if b == 0x7F then 0xFF else b
  {
    var f := Unpack(b);
    PackUnpack(b);
    LevelBounds(f.segment, f.mantissa);
    LevelIsFixed(f.segment, f.mantissa);
  }

  lemma SegmentUnique(biased: int, e: nat)
    requires e < 8 && 33 <= biased <= 8191 && 32 * Pow2(e) <= biased < 64 * Pow2(e)
    ensures SegmentOf(biased) == e
  {
    PowersToSeven();
  }

  lemma LevelInSegment(segment: nat, mantissa: nat, p: nat)
    requires segment < 8 && mantissa < 16 && p == Pow2(segment)
    ensures var biased := Level(segment, mantissa) + BIAS;
            33 <= biased <= 8191 && 33 * p <= biased <= 63 * p && SegmentOf(biased) == segment
  {
    LevelBounds(segment, mantissa);
    Scale(BIAS, 2 * mantissa + BIAS, p);
    Scale(2 * mantissa + BIAS, 63, p);
    SegmentUnique(Level(segment, mantissa) + BIAS, segment);
  }

  lemma LevelKeepsMantissa(segment: nat, mantissa: nat, p: nat)
    requires segment < 8 && mantissa < 16 && p == Pow2(segment)
    ensures (Level(segment, mantissa) + BIAS) / (2 * p) == mantissa + 16
  {
    MiddleOf(mantissa, p);
    DivUnique(Level(segment, mantissa) + BIAS, 2 * p, mantissa + 16, p);
  }

  lemma LevelIsFixed(segment: nat, mantissa: nat)
    requires segment < 8 && mantissa < 16
    ensures var biased := Level(segment, mantissa) + BIAS;
            && 33 <= biased <= 8191
            && SegmentOf(biased) == segment
            && biased / (2 * Pow2(segment)) % 16 == mantissa
            && (Level(segment, mantissa) == 0 <==> segment == 0 && mantissa == 0)
  {
    LevelInSegment(segment, mantissa, Pow2(segment));
    LevelKeepsMantissa(segment, mantissa, Pow2(segment));
    LevelZeroIff(segment, mantissa, Pow2(segment));
  }

  lemma LevelZeroIff(segment: nat, mantissa: nat, p: nat)
    requires segment < 8 && mantissa < 16 && p == Pow2(segment)
    ensures Level(segment, mantissa) == 0 <==> segment == 0 && mantissa == 0
  {
    PowersToSeven();
    Scale(BIAS, 2 * mantissa + BIAS, p);
  }

  /** Silence is coded as 0xFF. */
  lemma ZeroEncodes()
    ensures Encode(0) == 0xFF
  {
    assert Magnitude(0) == 0;
    PowersToSeven();
    assert SegmentOf(33) == 0;
    assert Quantize(0) == Fields(false, 0, 0);
  }

  /** One pass through the codec is enough: a second one changes nothing. */
  lemma Idempotent(x: Sample)
    ensures Encode(Decode(Encode(x))) == Encode(x)
  {
    CodeRoundTrip(Encode(x));
    UnpackPack(Quantize(x));
    if x < 0 {
      var biased := Magnitude(x) + BIAS;
      CellAt(biased, SegmentOf(biased));
    }
  }
}
