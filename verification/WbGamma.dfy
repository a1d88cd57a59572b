/**
 The fused RGB to RGBA pass (camera/isp/ColorConvNEON.cpp, rgbToRgbaWbGamma): vertical flip, white balance
 gains in Q8.8, clamping, gamma table and alpha in one loop over the buffers. The gains are taken as the
 fixed-point integers the function computes from its floating-point arguments.
 */
module WbGamma {
  import opened Neon
  import opened ColorConv

  // ----- One channel of one pixel -----

  /** The white balance pass. */
  function Gain(px: int, gain: nat): int { Shr8(px * gain + 128) }

  /** The clamping pass. */
  function Clamp(v: int): int { if v > 255 then 255 else v }

  /** A lane of the vector path: 16-bit gain, 32-bit product, narrowing to 16 bits, saturation. */
  function VectorGain(px: int, gain: nat): u8 {
    Sat8(Shr8((px * (gain % 0x1_0000) + 128) % 0x1_0000_0000) % 0x1_0000)
  }

  lemma ProductRange(px: int, gain: nat)
    requires Byte(px)
    ensures 0 <= px * gain <= 255 * gain
  {
    assert px * gain + (255 - px) * gain == 255 * gain;
  }

  lemma SmallLane(px: int, gain: nat)
    requires Byte(px) && gain < 0x1_0000
    ensures VectorGain(px, gain) as int == Clamp(Gain(px, gain))
  {
    ProductRange(px, gain);
    var p := px * gain;
    assert gain % 0x1_0000 == gain;
    assert (p + 128) % 0x1_0000_0000 == p + 128;
    assert Shr8(p + 128) % 0x1_0000 == Shr8(p + 128);
  }

  /** The vector lanes compute gain and clamp for every pixel exactly when the gain fits 16 bits or what is
      left of it saturates every non-zero pixel as well. */
  lemma LaneExactIff(gain: nat)
    ensures (forall px :: Byte(px) ==> VectorGain(px, gain) as int == Clamp(Gain(px, gain)))
      <==> gain < 0x1_0000 || Gain(1, gain % 0x1_0000) >= 255
  {
    if gain < 0x1_0000 {
      forall px | Byte(px) ensures VectorGain(px, gain) as int == Clamp(Gain(px, gain)) {
        SmallLane(px, gain);
      }
    } else {
      LargeGain(gain);
    }
  }

  /** The smallest gain that is lost: the vector path blackens a pixel that the remainder makes white. */
  lemma HighBitsLost()
    ensures VectorGain(1, 0x1_0000) == 0 && Clamp(Gain(1, 0x1_0000)) == 255
  {
  }

  lemma LargeGain(gain: nat)
    requires gain >= 0x1_0000
    ensures (forall px :: Byte(px) ==> VectorGain(px, gain) as int == Clamp(Gain(px, gain)))
      <==> Gain(1, gain % 0x1_0000) >= 255
  {
    var low := gain % 0x1_0000;
    SmallLane(1, low);
    assert Byte(1) && VectorGain(1, gain) == VectorGain(1, low) && Gain(1, gain) >= 255;
    if Gain(1, low) >= 255 {
      forall px | Byte(px) ensures VectorGain(px, gain) as int == Clamp(Gain(px, gain)) {
        LargeGainLane(px, gain, low);
      }
    }
  }

  lemma Saturates(px: int, gain: nat)
    requires 1 <= px && Gain(1, gain) >= 255
    ensures Gain(px, gain) >= 255
  {
    assert px * gain == (px - 1) * gain + gain;
    assert (px - 1) * gain >= 0;
  }

  lemma LargeGainLane(px: int, gain: nat, low: nat)
    requires Byte(px) && low == gain % 0x1_0000 && gain >= 0x1_0000 && Gain(1, low) >= 255
    ensures VectorGain(px, gain) as int == Clamp(Gain(px, gain))
  {
    SmallLane(px, low);
    assert VectorGain(px, gain) == VectorGain(px, low);
    if px > 0 {
      Saturates(px, low);
      Saturates(px, gain);
    }
  }

  // ----- Whole pixels and images -----

  datatype Rgb = Rgb(r: int, g: int, b: int)

  datatype Rgba = Rgba(r: u8, g: u8, b: u8, a: u8)

  datatype Settings = Settings(rGain: nat, gGain: nat, bGain: nat, lut: seq<u8>)

  const INT_MAX := 0x7fff_ffff

  /** The remainder's products stay within an int. */
  predicate Fits(gain: nat) { 255 * gain + 128 <= INT_MAX }

  predicate Ok(s: Settings) {
    Fits(s.rGain) && Fits(s.gGain) && Fits(s.bGain) && |s.lut| == 256
  }

  /** The vector lanes compute this gain as the remainder does. */
  predicate Exact(gain: nat) { gain < 0x1_0000 || Gain(1, gain % 0x1_0000) >= 255 }

  predicate AllExact(s: Settings) { Exact(s.rGain) && Exact(s.gGain) && Exact(s.bGain) }

  type Image<T> = seq<seq<T>>

  function Map<T, U>(f: T -> U, img: Image<T>): (r: Image<U>)
    ensures |r| == |img|
  {
    seq(|img|, y requires 0 <= y < |img| => seq(|img[y]|, x requires 0 <= x < |img[y]| => f(img[y][x])))
  }

  function Flip<T>(img: Image<T>, flipV: bool): (r: Image<T>)
    ensures |r| == |img|
  {
    seq(|img|, y requires 0 <= y < |img| => img[if flipV then |img| - 1 - y else y])
  }

  function GainPixel(s: Settings): Rgb -> Rgb {
    (p: Rgb) => Rgb(Gain(p.r, s.rGain), Gain(p.g, s.gGain), Gain(p.b, s.bGain))
  }

  function ClampPixel(p: Rgb): Rgb { Rgb(Clamp(p.r), Clamp(p.g), Clamp(p.b)) }

  function Look(lut: seq<u8>, v: int): u8 { if 0 <= v < |lut| then lut[v] else 0 }

  function LutPixel(s: Settings): Rgb -> Rgb {
    (p: Rgb) => Rgb(Look(s.lut, p.r) as int, Look(s.lut, p.g) as int, Look(s.lut, p.b) as int)
  }

  function AlphaPixel(p: Rgb): Rgba { Rgba(Sat8(p.r), Sat8(p.g), Sat8(p.b), 255) }

  /** The reference: five separate passes over the image. */
  function Passes(img: Image<Rgb>, s: Settings, flipV: bool): (r: Image<Rgba>)
    ensures |r| == |img|
  {
    Map(AlphaPixel, Map(LutPixel(s), Map(ClampPixel, Map(GainPixel(s), Flip(img, flipV)))))
  }

  /** A gained and clamped channel, by a vector lane or by the remainder. */
  function Level(px: int, gain: nat, vector: bool): (v: int)
    requires Byte(px)
    ensures Byte(v)
  {
    ProductRange(px, gain);
    if vector then VectorGain(px, gain) as int else Clamp(Gain(px, gain))
  }

  /** The fused pixel. */
  function Fused(s: Settings, rgb: seq<u8>, n: nat, vector: bool): Rgba
    requires Ok(s) && 3 * n + 2 < |rgb|
  {
    Rgba(s.lut[Level(Channel(rgb, n, 0), s.rGain, vector)], s.lut[Level(Channel(rgb, n, 1), s.gGain, vector)],
      s.lut[Level(Channel(rgb, n, 2), s.bGain, vector)], 255)
  }

  function Pixel(rgb: seq<u8>, n: nat): Rgb
    requires 3 * n + 2 < |rgb|
  {
    Rgb(Channel(rgb, n, 0), Channel(rgb, n, 1), Channel(rgb, n, 2))
  }

  lemma LevelExact(px: int, gain: nat, vector: bool)
    requires Byte(px) && (vector ==> Exact(gain))
    ensures Level(px, gain, vector) == Clamp(Gain(px, gain))
  {
    LaneExactIff(gain);
  }

  lemma FusedIsPasses(s: Settings, rgb: seq<u8>, n: nat, vector: bool)
    requires Ok(s) && 3 * n + 2 < |rgb| && (vector ==> AllExact(s))
    ensures Fused(s, rgb, n, vector) == AlphaPixel(LutPixel(s)(ClampPixel(GainPixel(s)(Pixel(rgb, n)))))
  {
    LevelExact(Channel(rgb, n, 0), s.rGain, vector);
    LevelExact(Channel(rgb, n, 1), s.gGain, vector);
    LevelExact(Channel(rgb, n, 2), s.bGain, vector);
  }

  // ----- The buffers -----

  /** The four bytes of pixel `n`. */
  ghost predicate PixelIs(rgba: seq<u8>, n: nat, p: Rgba) {
    && 4 * n + 4 <= |rgba|
    && rgba[4 * n] == p.r && rgba[4 * n + 1] == p.g && rgba[4 * n + 2] == p.b && rgba[4 * n + 3] == p.a
  }

  /** Destination pixel `n` holds the fused pixel of source pixel `n + shift`; vectors end at `split`. */
  ghost predicate Done(s: Settings, rgb: seq<u8>, shift: int, rgba: seq<u8>, n: nat, split: nat) {
    Ok(s) && 0 <= n + shift && 3 * (n + shift) + 2 < |rgb| && PixelIs(rgba, n, Fused(s, rgb, n + shift, n < split))
  }

  /** The pixels from `lo` up to `hi` are done, those before `split` by vectors. */
  ghost predicate Stored(s: Settings, rgb: seq<u8>, shift: int, rgba: seq<u8>, lo: nat, hi: nat, split: nat) {
    forall n :: lo <= n < hi ==> Done(s, rgb, shift, rgba, n, split)
  }

  lemma StoredStays(s: Settings, rgb: seq<u8>, shift: int, before: seq<u8>, after: seq<u8>, lo: nat, hi: nat, split: nat)
    requires Stored(s, rgb, shift, before, lo, hi, split) && |after| == |before|
    requires forall k :: 0 <= k < 4 * hi && k < |before| ==> after[k] == before[k]
    ensures Stored(s, rgb, shift, after, lo, hi, split)
  {
    forall n | lo <= n < hi ensures Done(s, rgb, shift, after, n, split) {
      assert Done(s, rgb, shift, before, n, split);
    }
  }

  method StorePixel(rgba: array<u8>, n: nat, p: Rgba)
    requires 4 * n + 4 <= rgba.Length
    modifies rgba
    ensures PixelIs(rgba[..], n, p)
    ensures forall k :: 0 <= k < rgba.Length && !(4 * n <= k < 4 * n + 4) ==> rgba[k] == old(rgba[k])
  {
    var d := 4 * n;
    rgba[d] := p.r;
    rgba[d + 1] := p.g;
    rgba[d + 2] := p.b;
    rgba[d + 3] := p.a;
  }

  /** The gained and clamped values of one channel of eight pixels. */
  function GainLanes(v: Lanes, gain: nat): (r: seq<u8>)
    ensures |r| == |v|
  {
    seq(|v|, i requires 0 <= i < |v| => VectorGain(v[i], gain))
  }

  /** Eight pixels: vector gains, then table look-ups. */
  method Lanes8(s: Settings, rgb: seq<u8>, src: nat) returns (pixels: seq<Rgba>)
    requires Ok(s) && 3 * (src + 8) <= |rgb|
    ensures |pixels| == 8 && forall i :: 0 <= i < 8 ==> pixels[i] == Fused(s, rgb, src + i, true)
  {
    var r, g, b := GainLanes(Load(rgb, src, 8, 0), s.rGain), GainLanes(Load(rgb, src, 8, 1), s.gGain), GainLanes(Load(rgb, src, 8, 2), s.bGain);
    pixels := seq(8, i requires 0 <= i < 8 => Rgba(s.lut[r[i] as int], s.lut[g[i] as int], s.lut[b[i] as int], 255));
  }

  /** They are stored one after the other. */
  method Store8(s: Settings, rgb: seq<u8>, src: nat, rgba: array<u8>, dst: nat, ghost shift: int, ghost split: nat)
    requires shift == src - dst && dst + 8 <= split && Ok(s) && 3 * (src + 8) <= |rgb| && 4 * (dst + 8) <= rgba.Length
    modifies rgba
    ensures Stored(s, rgb, shift, rgba[..], dst, dst + 8, split)
    ensures forall k :: 0 <= k < 4 * dst ==> rgba[k] == old(rgba[k])
  {
    var pixels := Lanes8(s, rgb, src);
    for i := 0 to 8
      invariant Stored(s, rgb, shift, rgba[..], dst, dst + i, split)
      invariant forall k :: 0 <= k < 4 * dst ==> rgba[k] == old(rgba[k])
    {
      ghost var before := rgba[..];
      StorePixel(rgba, dst + i, pixels[i]);
      StoredStays(s, rgb, shift, before, rgba[..], dst, dst + i, split);
      assert Done(s, rgb, shift, rgba[..], dst + i, split);
    }
  }

  /** One pixel of the remainder, with plain integers. */
  method Store1(s: Settings, rgb: seq<u8>, src: nat, rgba: array<u8>, dst: nat, ghost shift: int, ghost split: nat)
    requires shift == src - dst && split <= dst && Ok(s) && 3 * (src + 1) <= |rgb| && 4 * (dst + 1) <= rgba.Length
    modifies rgba
    ensures Done(s, rgb, shift, rgba[..], dst, split)
    ensures forall k :: 0 <= k < 4 * dst ==> rgba[k] == old(rgba[k])
  {
    var r, g, b := Channel(rgb, src, 0), Channel(rgb, src, 1), Channel(rgb, src, 2);
    ProductRange(r, s.rGain);
    ProductRange(g, s.gGain);
    ProductRange(b, s.bGain);
    var rv, gv, bv := Gain(r, s.rGain), Gain(g, s.gGain), Gain(b, s.bGain);
    var p := Rgba(s.lut[if rv > 255 then 255 else rv], s.lut[if gv > 255 then 255 else gv], s.lut[if bv > 255 then 255 else bv], 255);
    StorePixel(rgba, dst, p);
  }

  lemma StoredMore(s: Settings, rgb: seq<u8>, shift: int, rgba: seq<u8>, lo: nat, mid: nat, hi: nat, split: nat)
    requires Stored(s, rgb, shift, rgba, lo, mid, split) && Stored(s, rgb, shift, rgba, mid, hi, split)
    ensures Stored(s, rgb, shift, rgba, lo, hi, split)
  {
  }

  /** Where the vectors of a row end. */
  function VectorWidth(width: nat): nat { width - width % 8 }

  /** One row: vectors, then the remainder. */
  method Row(s: Settings, rgb: seq<u8>, src: nat, width: nat, rgba: array<u8>, dst: nat, ghost shift: int)
    requires shift == src - dst && Ok(s) && 3 * (src + width) <= |rgb| && 4 * (dst + width) <= rgba.Length
    modifies rgba
    ensures Stored(s, rgb, shift, rgba[..], dst, dst + width, dst + VectorWidth(width))
    ensures forall k :: 0 <= k < 4 * dst ==> rgba[k] == old(rgba[k])
  {
    var x := VectorPart(s, rgb, src, width, rgba, dst, shift);
    while x < width
      invariant VectorWidth(width) <= x <= width
      invariant Stored(s, rgb, shift, rgba[..], dst, dst + x, dst + VectorWidth(width))
      invariant forall k :: 0 <= k < 4 * dst ==> rgba[k] == old(rgba[k])
    {
      NextPixel(s, rgb, src, x, rgba, dst, shift, dst + VectorWidth(width));
      x := x + 1;
    }
  }

  /** One more pixel of the remainder. */
  method NextPixel(s: Settings, rgb: seq<u8>, src: nat, x: nat, rgba: array<u8>, dst: nat, ghost shift: int, ghost split: nat)
    requires shift == src - dst && Ok(s) && 3 * (src + x + 1) <= |rgb| && 4 * (dst + x + 1) <= rgba.Length && split <= dst + x
    requires Stored(s, rgb, shift, rgba[..], dst, dst + x, split)
    modifies rgba
    ensures Stored(s, rgb, shift, rgba[..], dst, dst + x + 1, split)
    ensures forall k :: 0 <= k < 4 * (dst + x) ==> rgba[k] == old(rgba[k])
  {
    ghost var before := rgba[..];
    Store1(s, rgb, src + x, rgba, dst + x, shift, split);
    StoredStays(s, rgb, shift, before, rgba[..], dst, dst + x, split);
  }

  method VectorPart(s: Settings, rgb: seq<u8>, src: nat, width: nat, rgba: array<u8>, dst: nat, ghost shift: int) returns (x: nat)
    requires shift == src - dst && Ok(s) && 3 * (src + width) <= |rgb| && 4 * (dst + width) <= rgba.Length
    modifies rgba
    ensures x == VectorWidth(width) && Stored(s, rgb, shift, rgba[..], dst, dst + x, dst + x)
    ensures forall k :: 0 <= k < 4 * dst ==> rgba[k] == old(rgba[k])
  {
    ghost var split := dst + VectorWidth(width);
    x := 0;
    while x + 8 <= width
      invariant x <= width && x % 8 == 0 && Stored(s, rgb, shift, rgba[..], dst, dst + x, split)
      invariant forall k :: 0 <= k < 4 * dst ==> rgba[k] == old(rgba[k])
    {
      ghost var before := rgba[..];
      assert x + 8 <= VectorWidth(width);
      Store8(s, rgb, src + x, rgba, dst + x, shift, split);
      StoredStays(s, rgb, shift, before, rgba[..], dst, dst + x, split);
      StoredMore(s, rgb, shift, rgba[..], dst, dst + x, dst + x + 8, split);
      x := x + 8;
    }
  }

  /** The first pixel of a row. */
  function Offset(y: nat, width: nat): nat { y * width }

  lemma InImage(width: nat, height: nat, y: nat)
    requires y < height
    ensures Offset(y, width) + width <= height * width
  {
    RowOrder(width, y, height);
  }

  function SourceRow(height: nat, flipV: bool, y: nat): nat
    requires y < height
  {
    if flipV then height - 1 - y else y
  }

  ghost predicate RowDone(s: Settings, rgb: seq<u8>, width: nat, height: nat, flipV: bool, rgba: seq<u8>, y: nat)
    requires y < height
  {
    Stored(s, rgb, Offset(SourceRow(height, flipV, y), width) - Offset(y, width), rgba, Offset(y, width), Offset(y, width) + width, Offset(y, width) + VectorWidth(width))
  }

  lemma RowStays(s: Settings, rgb: seq<u8>, width: nat, height: nat, flipV: bool, before: seq<u8>, after: seq<u8>, c: nat, y: nat)
    requires c < y < height && RowDone(s, rgb, width, height, flipV, before, c) && |after| == |before|
    requires forall k :: 0 <= k < 4 * Offset(y, width) && k < |before| ==> after[k] == before[k]
    ensures RowDone(s, rgb, width, height, flipV, after, c)
  {
    RowOrder(width, c, y);
    var lo, hi, shift := Offset(c, width), Offset(c, width) + width, Offset(SourceRow(height, flipV, c), width) - Offset(c, width);
    StoredStays(s, rgb, shift, before, after, lo, hi, lo + VectorWidth(width));
  }

  /** Every row of the destination, for every width, height and flip. */
  method RgbToRgbaWbGamma(s: Settings, rgb: seq<u8>, width: nat, height: nat, flipV: bool, rgba: array<u8>)
    requires Ok(s) && |rgb| == 3 * (height * width) && rgba.Length >= 4 * (height * width)
    modifies rgba
    ensures forall y :: 0 <= y < height ==> RowDone(s, rgb, width, height, flipV, rgba[..], y)
  {
    for y := 0 to height
      invariant forall c :: 0 <= c < y ==> RowDone(s, rgb, width, height, flipV, rgba[..], c)
    {
      ghost var before := rgba[..];
      RowAt(s, rgb, width, height, flipV, rgba, y);
      forall c | 0 <= c < y ensures RowDone(s, rgb, width, height, flipV, rgba[..], c) {
        assert RowDone(s, rgb, width, height, flipV, before, c);
        RowStays(s, rgb, width, height, flipV, before, rgba[..], c, y);
      }
    }
  }

  method RowAt(s: Settings, rgb: seq<u8>, width: nat, height: nat, flipV: bool, rgba: array<u8>, y: nat)
    requires Ok(s) && |rgb| == 3 * (height * width) && rgba.Length >= 4 * (height * width) && y < height
    modifies rgba
    ensures RowDone(s, rgb, width, height, flipV, rgba[..], y)
    ensures forall k :: 0 <= k < 4 * Offset(y, width) && k < rgba.Length ==> rgba[k] == old(rgba[k])
  {
    var src: int, dst: int := Offset(SourceRow(height, flipV, y), width), Offset(y, width);
    InImage(width, height, y);
    InImage(width, height, SourceRow(height, flipV, y));
    Row(s, rgb, src, width, rgba, dst, src - dst);
  }

  // ----- Against the separate passes -----

  /** The image the buffer holds. */
  function Decoded(rgb: seq<u8>, width: nat, height: nat): (img: Image<Rgb>)
    requires |rgb| == 3 * (height * width)
    ensures |img| == height
  {
    seq(height, y requires 0 <= y < height => DecodedRow(rgb, width, height, y))
  }

  function DecodedRow(rgb: seq<u8>, width: nat, height: nat, y: nat): (row: seq<Rgb>)
    requires |rgb| == 3 * (height * width) && y < height
    ensures |row| == width
  {
    RowOrder(width, y, height);
    seq(width, x requires 0 <= x < width => Pixel(rgb, Offset(y, width) + x))
  }

  lemma PassesAt(img: Image<Rgb>, s: Settings, flipV: bool, y: nat, x: nat)
    requires y < |img| && x < |img[SourceRow(|img|, flipV, y)]|
    ensures x < |Passes(img, s, flipV)[y]|
    ensures Passes(img, s, flipV)[y][x]
      == AlphaPixel(LutPixel(s)(ClampPixel(GainPixel(s)(img[SourceRow(|img|, flipV, y)][x]))))
  {
    var m1 := Flip(img, flipV);
    var m2 := Map(GainPixel(s), m1);
    var m3 := Map(ClampPixel, m2);
    var m4 := Map(LutPixel(s), m3);
    assert m2[y][x] == GainPixel(s)(m1[y][x]);
    assert m3[y][x] == ClampPixel(m2[y][x]);
    assert m4[y][x] == LutPixel(s)(m3[y][x]);
  }

  /** The reference's pixel at row `y`, column `x`. */
  ghost predicate ReferencePixel(s: Settings, rgb: seq<u8>, width: nat, height: nat, flipV: bool, y: nat, x: nat, p: Rgba)
    requires |rgb| == 3 * (height * width) && y < height
  {
    var img := Passes(Decoded(rgb, width, height), s, flipV);
    x < |img[y]| && img[y][x] == p
  }

  lemma ReferenceIs(s: Settings, rgb: seq<u8>, width: nat, height: nat, flipV: bool, y: nat, x: nat, n: nat)
    requires |rgb| == 3 * (height * width) && y < height && x < width && n == Offset(SourceRow(height, flipV, y), width) + x
    ensures 3 * n + 2 < |rgb|
    ensures ReferencePixel(s, rgb, width, height, flipV, y, x, AlphaPixel(LutPixel(s)(ClampPixel(GainPixel(s)(Pixel(rgb, n))))))
  {
    DecodedAt(rgb, width, height, SourceRow(height, flipV, y), x);
    PassesAt(Decoded(rgb, width, height), s, flipV, y, x);
  }

  /** What the fused loop leaves in the buffer is what flip, gain, clamp, table and alpha applied one after
      the other give: everywhere if the gains are exact, as all gains below 2^16 are, and for all gains in
      the remainder of a row. */
  lemma FusedEqualsPasses(s: Settings, rgb: seq<u8>, width: nat, height: nat, flipV: bool, rgba: seq<u8>, y: nat, x: nat) returns (p: Rgba)
    requires Ok(s) && |rgb| == 3 * (height * width) && y < height && x < width
    requires RowDone(s, rgb, width, height, flipV, rgba, y) && (AllExact(s) || VectorWidth(width) <= x)
    ensures ReferencePixel(s, rgb, width, height, flipV, y, x, p) && PixelIs(rgba, Offset(y, width) + x, p)
  {
    var src, dst := Offset(SourceRow(height, flipV, y), width), Offset(y, width);
    ReferenceIs(s, rgb, width, height, flipV, y, x, src + x);
    p := PixelAt(s, rgb, rgba, src, dst, width, x);
  }

  lemma DecodedAt(rgb: seq<u8>, width: nat, height: nat, y: nat, x: nat)
    requires |rgb| == 3 * (height * width) && y < height && x < width
    ensures 3 * (Offset(y, width) + x) + 2 < |rgb|
    ensures x < |Decoded(rgb, width, height)[y]| && Decoded(rgb, width, height)[y][x] == Pixel(rgb, Offset(y, width) + x)
  {
    RowOrder(width, y, height);
    assert Decoded(rgb, width, height)[y] == DecodedRow(rgb, width, height, y);
  }

  lemma PixelAt(s: Settings, rgb: seq<u8>, rgba: seq<u8>, src: nat, dst: nat, width: nat, x: nat) returns (p: Rgba)
    requires Ok(s) && 3 * (src + x) + 2 < |rgb| && x < width && (AllExact(s) || VectorWidth(width) <= x)
    requires Stored(s, rgb, src - dst, rgba, dst, dst + width, dst + VectorWidth(width))
    ensures p == AlphaPixel(LutPixel(s)(ClampPixel(GainPixel(s)(Pixel(rgb, src + x)))))
    ensures PixelIs(rgba, dst + x, p)
  {
    var vector := x < VectorWidth(width);
    assert Done(s, rgb, src - dst, rgba, dst + x, dst + VectorWidth(width));
    FusedIsPasses(s, rgb, src + x, vector);
    p := Fused(s, rgb, src + x, vector);
  }
}
