/**
 The ARM NEON operations the colour conversion uses (camera/isp/ColorConvNEON.cpp), lane by lane, with
 their wrapping, narrowing and saturation written out. A vector is the sequence of its lanes.
 */
module Neon {

  newtype u8 = x: int | 0 <= x < 256

  type Lanes = seq<int>

  /** The low 16 bits as a signed number. */
  function Wrap16(n: int): int {
    if -0x8000 <= n < 0x8000 then n else (n + 0x8000) % 0x1_0000 - 0x8000
  }

  /** The low 32 bits as a signed number. */
  function Wrap32(n: int): int {
    if -0x8000_0000 <= n < 0x8000_0000 then n else (n + 0x8000_0000) % 0x1_0000_0000 - 0x8000_0000
  }

  /** An arithmetic shift right by 8: division rounding down. */
  function Shr8(n: int): int { n / 256 }

  function Sat8(n: int): u8 { if n < 0 then 0 else if n > 255 then 255 else n as u8 }

  /** vget_low, vget_high: a vector's two halves. */
  function Low(v: Lanes): Lanes requires |v| == 8 { v[..4] }

  function High(v: Lanes): Lanes requires |v| == 8 { v[4..] }

  /** vmull_s16 by a constant. */
  function MulLong(c: int, v: Lanes): Lanes {
    seq(|v|, i requires 0 <= i < |v| => Wrap32(c * v[i]))
  }

  /** vmlal_s16 by a constant. */
  function MulAddLong(acc: Lanes, c: int, v: Lanes): Lanes
    requires |acc| == |v|
  {
    seq(|v|, i requires 0 <= i < |v| => Wrap32(acc[i] + c * v[i]))
  }

  /** vshrn_n_s32(vaddq_s32(v, 128), 8). */
  function RoundShiftNarrow(v: Lanes): Lanes {
    seq(|v|, i requires 0 <= i < |v| => Wrap16(Shr8(Wrap32(v[i] + 128))))
  }

  /** vaddq_s16 of a constant. */
  function AddConst(v: Lanes, c: int): Lanes {
    seq(|v|, i requires 0 <= i < |v| => Wrap16(v[i] + c))
  }

  /** vqmovun_s16. */
  function SatNarrow(v: Lanes): seq<u8> {
    seq(|v|, i requires 0 <= i < |v| => Sat8(v[i]))
  }

  /** vuzp_u8(...).val[0] of the two halves of sixteen lanes: the even ones. */
  function Evens(v: Lanes): Lanes
    requires |v| == 16
  {
    seq(8, i requires 0 <= i < 8 => v[2 * i])
  }

  /** One row of a colour matrix with its bias. */
  datatype Weights = Weights(r: int, g: int, b: int, bias: int)

  /** Half a vector through the multiply, round and narrow chain. */
  function HalfChain(w: Weights, r: Lanes, g: Lanes, b: Lanes): Lanes
    requires |r| == |g| == |b|
  {
    RoundShiftNarrow(MulAddLong(MulAddLong(MulLong(w.r, r), w.g, g), w.b, b))
  }

  /** The whole vector path: both halves, combined, biased and narrowed with saturation. */
  function Kernel(w: Weights, r: Lanes, g: Lanes, b: Lanes): (v: seq<u8>)
    requires |r| == |g| == |b| == 8
    ensures |v| == 8
  {
    SatNarrow(AddConst(HalfChain(w, Low(r), Low(g), Low(b)) + HalfChain(w, High(r), High(g), High(b)), w.bias))
  }

  /** The per-pixel formula of the scalar remainder, before it is stored in a byte. */
  function Scalar(w: Weights, r: int, g: int, b: int): int {
    Shr8(w.r * r + w.g * g + w.b * b + 128) + w.bias
  }

  const LUMA := Weights(66, 129, 25, 16)
  const CHROMA_U := Weights(-38, -74, 112, 128)
  const CHROMA_V := Weights(112, -94, -18, 128)

  predicate Known(w: Weights) { w == LUMA || w == CHROMA_U || w == CHROMA_V }

  predicate Byte(n: int) { 0 <= n < 256 }

  /** Luma stays in 16..235 and chroma in 16..240 for every colour. */
  lemma ScalarRange(w: Weights, r: int, g: int, b: int)
    requires Known(w) && Byte(r) && Byte(g) && Byte(b)
    ensures 16 <= Scalar(w, r, g, b) <= if w == LUMA then 235 else 240
  {
  }

  /** The luma of BT.601 for a colour in 0..255. */
  function Luma601(r: int, g: int, b: int): real { 0.299 * r as real + 0.587 * g as real + 0.114 * b as real }

  /** Each formula is within one unit of the conversion of BT.601 to 16..235 and 16..240. */
  lemma NearBt601(r: int, g: int, b: int)
    requires Byte(r) && Byte(g) && Byte(b)
    ensures -1.0 < Scalar(LUMA, r, g, b) as real - (16.0 + Luma601(r, g, b) * 219.0 / 255.0) < 1.0
    ensures -1.0 < Scalar(CHROMA_U, r, g, b) as real - (128.0 + (b as real - Luma601(r, g, b)) / 1.772 * 224.0 / 255.0) < 1.0
    ensures -1.0 < Scalar(CHROMA_V, r, g, b) as real - (128.0 + (r as real - Luma601(r, g, b)) / 1.402 * 224.0 / 255.0) < 1.0
  {
  }

  /** A grey has no colour. */
  lemma GreyIsNeutral(n: int)
    requires Byte(n)
    ensures Scalar(CHROMA_U, n, n, n) == Scalar(CHROMA_V, n, n, n) == 128
  {
  }

  predicate Small(n: int) { -40000 <= n <= 40000 }

  /** The chain of one lane on the three products. */
  function Narrowed(p: int, q: int, t: int): int {
    Wrap16(Shr8(Wrap32(Wrap32(Wrap32(Wrap32(p) + q) + t) + 128)))
  }

  /** No step wraps, loses bits in narrowing or saturates: each keeps the exact value. */
  lemma ChainExact(p: int, q: int, t: int, bias: int)
    requires Small(p) && Small(q) && Small(t) && 0 <= bias <= 255 && 0 <= Shr8(p + q + t + 128) + bias <= 255
    ensures Narrowed(p, q, t) == Shr8(p + q + t + 128)
    ensures Wrap16(Narrowed(p, q, t) + bias) == Shr8(p + q + t + 128) + bias
    ensures Sat8(Wrap16(Narrowed(p, q, t) + bias)) as int == Shr8(p + q + t + 128) + bias
  {
    assert Wrap32(Wrap32(Wrap32(p) + q) + t) == p + q + t;
    assert Wrap32(p + q + t + 128) == p + q + t + 128;
  }

  lemma LaneExact(w: Weights, r: int, g: int, b: int)
    requires Known(w) && Byte(r) && Byte(g) && Byte(b)
    ensures Narrowed(w.r * r, w.g * g, w.b * b) == Scalar(w, r, g, b) - w.bias
    ensures Sat8(Wrap16(Scalar(w, r, g, b))) as int == Scalar(w, r, g, b)
  {
    ScalarRange(w, r, g, b);
    ChainExact(w.r * r, w.g * g, w.b * b, w.bias);
  }

  lemma HalfIsNarrowed(w: Weights, r: Lanes, g: Lanes, b: Lanes, i: nat, p: int, q: int, t: int)
    requires |r| == |g| == |b| && i < |r| && p == w.r * r[i] && q == w.g * g[i] && t == w.b * b[i]
    ensures |HalfChain(w, r, g, b)| == |r| && HalfChain(w, r, g, b)[i] == Narrowed(p, q, t)
  {
    var s1 := MulLong(w.r, r);
    var s2 := MulAddLong(s1, w.g, g);
    var s3 := MulAddLong(s2, w.b, b);
    assert s1[i] == Wrap32(p);
    assert s2[i] == Wrap32(s1[i] + q);
    assert s3[i] == Wrap32(s2[i] + t);
  }

  lemma HalfLane(w: Weights, r: Lanes, g: Lanes, b: Lanes, i: nat)
    requires |r| == |g| == |b| && i < |r| && Known(w) && Byte(r[i]) && Byte(g[i]) && Byte(b[i])
    ensures |HalfChain(w, r, g, b)| == |r| && HalfChain(w, r, g, b)[i] == Scalar(w, r[i], g[i], b[i]) - w.bias
  {
    LaneExact(w, r[i], g[i], b[i]);
    HalfIsNarrowed(w, r, g, b, i, w.r * r[i], w.g * g[i], w.b * b[i]);
  }

  /** Every lane of the vector path is the scalar formula of its pixel. */
  lemma KernelLane(w: Weights, r: Lanes, g: Lanes, b: Lanes, i: nat)
    requires |r| == |g| == |b| == 8 && i < 8 && Known(w) && Byte(r[i]) && Byte(g[i]) && Byte(b[i])
    ensures Kernel(w, r, g, b)[i] as int == Scalar(w, r[i], g[i], b[i])
  {
    LaneExact(w, r[i], g[i], b[i]);
    if i < 4 {
      HalfLane(w, Low(r), Low(g), Low(b), i);
    } else {
      HalfLane(w, High(r), High(g), High(b), i - 4);
    }
  }
}
