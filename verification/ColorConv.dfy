/**
 RGB to NV12 (camera/isp/ColorConvNEON.cpp, rgbToNv12): eight luma and sixteen chroma columns at a time,
 and a scalar remainder. The RGB buffer is a sequence of bytes, three to a pixel; the planes are arrays.
 */
module ColorConv {
  import opened Neon

  /** Channel `c` of pixel `n`. */
  function Channel(rgb: seq<u8>, n: nat, c: nat): (v: int)
    requires c < 3 && 3 * n + c < |rgb|
    ensures Byte(v)
  {
    rgb[3 * n + c] as int
  }

  /** The reference: the integer formula on one pixel. */
  function Convert(w: Weights, rgb: seq<u8>, n: nat): u8
    requires Known(w) && 3 * n + 2 < |rgb|
  {
    ScalarRange(w, Channel(rgb, n, 0), Channel(rgb, n, 1), Channel(rgb, n, 2));
    Scalar(w, Channel(rgb, n, 0), Channel(rgb, n, 1), Channel(rgb, n, 2)) as u8
  }

  /** vld3: one channel of `k` pixels in a row. */
  function Load(rgb: seq<u8>, n: nat, k: nat, c: nat): (v: Lanes)
    requires c < 3 && 3 * (n + k) <= |rgb|
    ensures |v| == k
  {
    seq(k, i requires 0 <= i < k => Channel(rgb, n + i, c))
  }

  /** What a vector of eight pixels is converted to. */
  lemma KernelConverts(w: Weights, rgb: seq<u8>, n: nat)
    requires Known(w) && 3 * (n + 8) <= |rgb|
    ensures var v := Kernel(w, Load(rgb, n, 8, 0), Load(rgb, n, 8, 1), Load(rgb, n, 8, 2));
      forall i :: 0 <= i < 8 ==> v[i] == Convert(w, rgb, n + i)
  {
    var r, g, b := Load(rgb, n, 8, 0), Load(rgb, n, 8, 1), Load(rgb, n, 8, 2);
    forall i | 0 <= i < 8 ensures Kernel(w, r, g, b)[i] == Convert(w, rgb, n + i) {
      assert r[i] == Channel(rgb, n + i, 0) && g[i] == Channel(rgb, n + i, 1) && b[i] == Channel(rgb, n + i, 2);
      KernelLane(w, r, g, b, i);
    }
  }

  /** What a vector of the even ones of sixteen pixels is converted to. */
  lemma EvensConvert(w: Weights, rgb: seq<u8>, n: nat)
    requires Known(w) && 3 * (n + 16) <= |rgb|
    ensures var v := Kernel(w, Evens(Load(rgb, n, 16, 0)), Evens(Load(rgb, n, 16, 1)), Evens(Load(rgb, n, 16, 2)));
      forall i :: 0 <= i < 8 ==> v[i] == Convert(w, rgb, n + 2 * i)
  {
    var r, g, b := Evens(Load(rgb, n, 16, 0)), Evens(Load(rgb, n, 16, 1)), Evens(Load(rgb, n, 16, 2));
    forall i | 0 <= i < 8 ensures Kernel(w, r, g, b)[i] == Convert(w, rgb, n + 2 * i) {
      var m := n + 2 * i;
      assert r[i] == Channel(rgb, m, 0) && g[i] == Channel(rgb, m, 1) && b[i] == Channel(rgb, m, 2);
      KernelLane(w, r, g, b, i);
    }
  }

  /** Luma of the pixels from `lo` up to `hi` is stored, and nothing else has changed. */
  ghost predicate LumaStored(rgb: seq<u8>, before: seq<u8>, after: seq<u8>, lo: nat, hi: nat) {
    && |after| == |before| && lo <= hi <= |after| && 3 * hi <= |rgb|
    && forall k :: 0 <= k < |after| ==> after[k] == if lo <= k < hi then Convert(LUMA, rgb, k) else before[k]
  }

  /** Eight pixels: one vector store. */
  method StoreLuma8(rgb: seq<u8>, n: nat, yPlane: array<u8>)
    requires 3 * (n + 8) <= |rgb| && n + 8 <= yPlane.Length
    modifies yPlane
    ensures LumaStored(rgb, old(yPlane[..]), yPlane[..], n, n + 8)
  {
    var v := Kernel(LUMA, Load(rgb, n, 8, 0), Load(rgb, n, 8, 1), Load(rgb, n, 8, 2));
    KernelConverts(LUMA, rgb, n);
    for i := 0 to 8
      invariant LumaStored(rgb, old(yPlane[..]), yPlane[..], n, n + i)
    {
      assert v[i] == Convert(LUMA, rgb, n + i);
      yPlane[n + i] := v[i];
    }
  }

  /** One row: vectors, then the remainder. */
  method LumaRow(rgb: seq<u8>, rowBase: nat, width: nat, yPlane: array<u8>)
    requires 3 * (rowBase + width) <= |rgb| && rowBase + width <= yPlane.Length
    modifies yPlane
    ensures LumaStored(rgb, old(yPlane[..]), yPlane[..], rowBase, rowBase + width)
  {
    var x := 0;
    while x + 8 <= width
      invariant x <= width && LumaStored(rgb, old(yPlane[..]), yPlane[..], rowBase, rowBase + x)
    {
      StoreLuma8(rgb, rowBase + x, yPlane);
      x := x + 8;
    }
    while x < width
      invariant x <= width && LumaStored(rgb, old(yPlane[..]), yPlane[..], rowBase, rowBase + x)
    {
      var n := rowBase + x;
      var r, g, b := rgb[3 * n] as int, rgb[3 * n + 1] as int, rgb[3 * n + 2] as int;
      ScalarRange(LUMA, r, g, b);
      yPlane[n] := (Shr8(66 * r + 129 * g + 25 * b + 128) + 16) as u8;
      x := x + 1;
    }
  }

  lemma {:induction false} RowOrder(width: nat, a: nat, b: nat)
    requires a < b
    ensures a * width + width <= b * width
    decreases b - a
  {
    assert (a + 1) * width == a * width + width;
    if a + 1 < b {
      RowOrder(width, a + 1, b);
    }
  }

  lemma NextRow(width: nat, y: nat)
    ensures (y + 1) * width == y * width + width
  {
  }

  /** Every luma byte of the plane is the formula on its pixel, for every width and height. */
  method LumaPlane(rgb: seq<u8>, width: nat, height: nat, yPlane: array<u8>)
    requires |rgb| == 3 * (height * width) && yPlane.Length >= height * width
    modifies yPlane
    ensures LumaStored(rgb, old(yPlane[..]), yPlane[..], 0, height * width)
  {
    var rowBase := 0;
    ghost var total := height * width;
    for y := 0 to height
      invariant rowBase == y * width && rowBase <= total
      invariant LumaStored(rgb, old(yPlane[..]), yPlane[..], 0, rowBase)
    {
      RowOrder(width, y, height);
      NextRow(width, y);
      LumaRow(rgb, rowBase, width, yPlane);
      rowBase := rowBase + width;
    }
  }

  /** The chroma byte at column `x` of a row whose pixels start at `base`: U and V of the even pixel, side
      by side. The last byte of an odd row is not written. */
  function ChromaByte(rgb: seq<u8>, base: nat, width: nat, x: nat, was: u8): u8
    requires x < width && 3 * (base + width) <= |rgb|
  {
    if x % 2 == 1 then Convert(CHROMA_V, rgb, base + x - 1)
    else if x + 1 < width then Convert(CHROMA_U, rgb, base + x)
    else was
  }

  /** The first `hi` bytes of the chroma row at `o`, of the pixel row at `base`, are stored, and nothing
      else has changed. */
  ghost predicate ChromaStored(rgb: seq<u8>, base: nat, width: nat, before: seq<u8>, after: seq<u8>, o: nat, hi: nat) {
    && |after| == |before| && hi <= width && o + width <= |after| && 3 * (base + width) <= |rgb|
    && forall k :: 0 <= k < |after| ==>
         after[k] == if o <= k < o + hi then ChromaByte(rgb, base, width, k - o, before[k]) else before[k]
  }

  lemma EvenColumn(rgb: seq<u8>, base: nat, width: nat, x: nat, was: u8, was': u8)
    requires x % 2 == 0 && x + 2 <= width && 3 * (base + width) <= |rgb|
    ensures ChromaByte(rgb, base, width, x, was) == Convert(CHROMA_U, rgb, base + x)
    ensures ChromaByte(rgb, base, width, x + 1, was') == Convert(CHROMA_V, rgb, base + x)
  {
    assert (x + 1) % 2 == 1 && base + (x + 1) - 1 == base + x;
  }

  lemma TwoMore(rgb: seq<u8>, base: nat, width: nat, before: seq<u8>, mid: seq<u8>, after: seq<u8>, o: nat, x: nat)
    requires ChromaStored(rgb, base, width, before, mid, o, x) && x + 2 <= width && |after| == |mid|
    requires forall k :: 0 <= k < |mid| && k != o + x && k != o + x + 1 ==> after[k] == mid[k]
    requires after[o + x] == ChromaByte(rgb, base, width, x, before[o + x])
    requires after[o + x + 1] == ChromaByte(rgb, base, width, x + 1, before[o + x + 1])
    ensures ChromaStored(rgb, base, width, before, after, o, x + 2)
  {
    forall k | 0 <= k < |after|
      ensures after[k] == if o <= k < o + (x + 2) then ChromaByte(rgb, base, width, k - o, before[k]) else before[k]
    {
      if k == o + x {
        assert k - o == x;
      } else if k == o + x + 1 {
        assert k - o == x + 1;
      } else {
        assert after[k] == mid[k];
      }
    }
  }

  /** U and V of the pixel at an even column. */
  method StorePair(rgb: seq<u8>, base: nat, width: nat, x: nat, u: u8, v: u8, uvPlane: array<u8>, o: nat, ghost before: seq<u8>)
    requires ChromaStored(rgb, base, width, before, uvPlane[..], o, x) && x % 2 == 0 && x + 2 <= width
    requires u == Convert(CHROMA_U, rgb, base + x) && v == Convert(CHROMA_V, rgb, base + x)
    modifies uvPlane
    ensures ChromaStored(rgb, base, width, before, uvPlane[..], o, x + 2)
  {
    ghost var mid := uvPlane[..];
    uvPlane[o + x] := u;
    uvPlane[o + x + 1] := v;
    EvenColumn(rgb, base, width, x, before[o + x], before[o + x + 1]);
    TwoMore(rgb, base, width, before, mid, uvPlane[..], o, x);
  }

  /** U and V of the even ones of sixteen pixels. */
  method Chroma16(rgb: seq<u8>, n: nat) returns (u: seq<u8>, v: seq<u8>)
    requires 3 * (n + 16) <= |rgb|
    ensures |u| == |v| == 8
    ensures forall i :: 0 <= i < 8 ==> u[i] == Convert(CHROMA_U, rgb, n + 2 * i)
    ensures forall i :: 0 <= i < 8 ==> v[i] == Convert(CHROMA_V, rgb, n + 2 * i)
  {
    var r, g, b := Evens(Load(rgb, n, 16, 0)), Evens(Load(rgb, n, 16, 1)), Evens(Load(rgb, n, 16, 2));
    u, v := Kernel(CHROMA_U, r, g, b), Kernel(CHROMA_V, r, g, b);
    EvensConvert(CHROMA_U, rgb, n);
    EvensConvert(CHROMA_V, rgb, n);
  }

  /** Sixteen bytes: one interleaved store. */
  method StoreChroma16(rgb: seq<u8>, base: nat, width: nat, x: nat, uvPlane: array<u8>, o: nat, ghost before: seq<u8>)
    requires ChromaStored(rgb, base, width, before, uvPlane[..], o, x) && x % 2 == 0 && x + 16 <= width
    modifies uvPlane
    ensures ChromaStored(rgb, base, width, before, uvPlane[..], o, x + 16)
  {
    var u, v := Chroma16(rgb, base + x);
    var col := x;
    for i := 0 to 8
      invariant col == x + 2 * i && col % 2 == 0
      invariant ChromaStored(rgb, base, width, before, uvPlane[..], o, col)
    {
      assert base + x + 2 * i == base + col;
      StorePair(rgb, base, width, col, u[i], v[i], uvPlane, o, before);
      col := col + 2;
    }
  }

  /** U and V of one pixel of the remainder. */
  method Chroma1(rgb: seq<u8>, n: nat) returns (u: u8, v: u8)
    requires 3 * n + 2 < |rgb|
    ensures u == Convert(CHROMA_U, rgb, n) && v == Convert(CHROMA_V, rgb, n)
  {
    var r, g, b := rgb[3 * n] as int, rgb[3 * n + 1] as int, rgb[3 * n + 2] as int;
    ScalarRange(CHROMA_U, r, g, b);
    ScalarRange(CHROMA_V, r, g, b);
    u := (Shr8(-38 * r - 74 * g + 112 * b + 128) + 128) as u8;
    v := (Shr8(112 * r - 94 * g - 18 * b + 128) + 128) as u8;
  }

  /** One chroma row: sixteen columns at a time, then pairs of columns. */
  method ChromaRow(rgb: seq<u8>, base: nat, width: nat, uvPlane: array<u8>, o: nat)
    requires 3 * (base + width) <= |rgb| && o + width <= uvPlane.Length
    modifies uvPlane
    ensures ChromaStored(rgb, base, width, old(uvPlane[..]), uvPlane[..], o, width)
  {
    var x := 0;
    ghost var before := uvPlane[..];
    while x + 16 <= width
      invariant x <= width && x % 2 == 0 && ChromaStored(rgb, base, width, before, uvPlane[..], o, x)
    {
      StoreChroma16(rgb, base, width, x, uvPlane, o, before);
      x := x + 16;
    }
    while x < width
      invariant x <= width && x % 2 == 0 && ChromaStored(rgb, base, width, before, uvPlane[..], o, x)
    {
      if x + 1 >= width {
        break;
      }
      var u, v := Chroma1(rgb, base + x);
      StorePair(rgb, base, width, x, u, v, uvPlane, o, before);
      x := x + 2;
    }
  }

  /** Chroma row `cy` holds U and V of the even pixels of image row 2 * cy. */
  ghost predicate ChromaRowIs(rgb: seq<u8>, width: nat, before: seq<u8>, after: seq<u8>, cy: nat) {
    var o := cy * width;
    && |after| == |before| && o + width <= |after| && 3 * (2 * o + width) <= |rgb|
    && forall k :: o <= k < o + width ==> after[k] == ChromaByte(rgb, 2 * o, width, k - o, before[k])
  }

  lemma RowStays(rgb: seq<u8>, width: nat, before: seq<u8>, mid: seq<u8>, after: seq<u8>, cy: nat, o: nat)
    requires ChromaRowIs(rgb, width, before, mid, cy) && cy * width + width <= o <= |mid| && |after| == |mid|
    requires forall k :: 0 <= k < o ==> after[k] == mid[k]
    ensures ChromaRowIs(rgb, width, before, after, cy)
  {
  }

  lemma RowDone(rgb: seq<u8>, width: nat, before: seq<u8>, mid: seq<u8>, after: seq<u8>, cy: nat)
    requires ChromaStored(rgb, 2 * (cy * width), width, mid, after, cy * width, width)
    requires |before| == |mid| && forall k :: cy * width <= k < |mid| ==> mid[k] == before[k]
    ensures ChromaRowIs(rgb, width, before, after, cy)
  {
  }

  /** Every byte of the chroma plane, for every width and height, odd ones included. */
  method ChromaPlane(rgb: seq<u8>, width: nat, height: nat, uvPlane: array<u8>)
    requires |rgb| == 3 * (height * width) && uvPlane.Length >= (height + 1) / 2 * width
    modifies uvPlane
    ensures forall cy :: 0 <= cy < (height + 1) / 2 ==> ChromaRowIs(rgb, width, old(uvPlane[..]), uvPlane[..], cy)
  {
    ghost var before := uvPlane[..];
    var cy := 0;
    while 2 * cy < height
      invariant 0 <= cy <= (height + 1) / 2
      invariant forall c :: 0 <= c < cy ==> ChromaRowIs(rgb, width, before, uvPlane[..], c)
      invariant forall k :: cy * width <= k < uvPlane.Length ==> uvPlane[k] == before[k]
    {
      var o := cy * width;
      RowOrder(width, cy, (height + 1) / 2);
      RowOrder(width, 2 * cy, height);
      assert 2 * cy * width == 2 * o;
      ghost var mid := uvPlane[..];
      ChromaRow(rgb, 2 * o, width, uvPlane, o);
      RowDone(rgb, width, before, mid, uvPlane[..], cy);
      forall c | 0 <= c < cy ensures ChromaRowIs(rgb, width, before, uvPlane[..], c) {
        RowOrder(width, c, cy);
        RowStays(rgb, width, before, mid, uvPlane[..], c, o);
      }
      RowOrder(width, cy, cy + 1);
      cy := cy + 1;
    }
  }

  /** Both planes. */
  method RgbToNv12(rgb: seq<u8>, width: nat, height: nat, yPlane: array<u8>, uvPlane: array<u8>)
    requires |rgb| == 3 * (height * width) && yPlane != uvPlane
    requires yPlane.Length >= height * width && uvPlane.Length >= (height + 1) / 2 * width
    modifies yPlane, uvPlane
    ensures LumaStored(rgb, old(yPlane[..]), yPlane[..], 0, height * width)
    ensures forall cy :: 0 <= cy < (height + 1) / 2 ==> ChromaRowIs(rgb, width, old(uvPlane[..]), uvPlane[..], cy)
  {
    LumaPlane(rgb, width, height, yPlane);
    ChromaPlane(rgb, width, height, uvPlane);
  }
}
