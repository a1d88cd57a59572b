/**
 The focus measure (camera/CameraPipeline.cpp): the sum of horizontal gradients of the green channel, as a
 plain double loop and unrolled eight wide. Totals are 32-bit integers; their bounds are proved.
 */
module Sobel {
  import opened Neon
  import opened ColorConv

  newtype int32 = x: int | -0x8000_0000 <= x <= 0x7fff_ffff

  const INT_MAX := 0x7fff_ffff

  /** Green of column `x` in the row that starts at byte `row`. */
  function Green(rgb: seq<u8>, row: nat, x: nat): int
    requires row + 3 * x + 1 < |rgb|
  {
    rgb[row + 3 * x + 1] as int
  }

  function Abs(n: int): (m: nat)
    ensures m == n || m == -n
  {
    if n < 0 then -n else n
  }

  /** The gradient around column `x`. */
  function Gradient(rgb: seq<u8>, row: nat, x: nat): (g: nat)
    requires 1 <= x && row + 3 * (x + 1) + 1 < |rgb|
    ensures g <= 255
  {
    Abs(Green(rgb, row, x + 1) - Green(rgb, row, x - 1))
  }

  /** The gradients of columns 1 up to `x`. */
  function RowEnergy(rgb: seq<u8>, row: nat, x: nat): (e: nat)
    requires 1 <= x && row + 3 * x + 1 < |rgb|
    ensures e <= 255 * (x - 1)
  {
    if x == 1 then 0 else RowEnergy(rgb, row, x - 1) + Gradient(rgb, row, x - 1)
  }

  predicate Image(rgb: seq<u8>, w: nat, h: nat) {
    w >= 3 && h >= 3 && |rgb| == 3 * (h * w)
  }

  /** The byte at which a row starts. */
  function RowStart(w: nat, y: nat): nat { 3 * (y * w) }

  lemma RowFits(w: nat, h: nat, y: nat)
    requires y < h
    ensures RowStart(w, y) + 3 * w <= 3 * (h * w)
  {
    RowOrder(w, y, h);
  }

  /** The gradients of rows 1 up to `y`. */
  function Energy(rgb: seq<u8>, w: nat, h: nat, y: nat): nat
    requires Image(rgb, w, h) && 1 <= y <= h
  {
    if y == 1 then 0
    else
      RowFits(w, h, y - 1);
      Energy(rgb, w, h, y - 1) + RowEnergy(rgb, RowStart(w, y - 1), w - 1)
  }

  /** The largest energy `rows` rows can have. */
  function Most(w: nat, rows: nat): int
    requires w >= 3
  {
    255 * ((w - 2) * rows)
  }

  lemma MostGrows(w: nat, a: nat, b: nat)
    requires w >= 3 && a <= b
    ensures Most(w, a) <= Most(w, b)
    ensures Most(w, a + 1) == Most(w, a) + 255 * (w - 2)
  {
    assert (w - 2) * b == (w - 2) * a + (w - 2) * (b - a);
    assert (w - 2) * (a + 1) == (w - 2) * a + (w - 2);
  }

  lemma {:induction false} EnergyBound(rgb: seq<u8>, w: nat, h: nat, y: nat)
    requires Image(rgb, w, h) && 1 <= y <= h
    ensures Energy(rgb, w, h, y) <= Most(w, y - 1)
  {
    if y > 1 {
      EnergyBound(rgb, w, h, y - 1);
      RowFits(w, h, y - 1);
      MostGrows(w, y - 2, y - 1);
    }
  }

  /** There is room for one more row, without leaving 32 bits. */
  lemma RoomForRow(rgb: seq<u8>, w: nat, h: nat, y: nat)
    requires Image(rgb, w, h) && 1 <= y < h - 1 && Most(w, h - 2) <= INT_MAX
    ensures RowStart(w, y) + 3 * w <= |rgb| && Energy(rgb, w, h, y) + 255 * (w - 2) <= INT_MAX
  {
    RowFits(w, h, y);
    EnergyBound(rgb, w, h, y);
    MostGrows(w, y - 1, h - 2);
    MostGrows(w, y, h - 2);
  }

  method GradientAt(rgb: seq<u8>, row: nat, x: nat) returns (g: int32)
    requires 1 <= x && row + 3 * (x + 1) + 1 < |rgb|
    ensures g as int == Gradient(rgb, row, x)
  {
    var d := rgb[row + (x + 1) * 3 + 1] as int - rgb[row + (x - 1) * 3 + 1] as int;
    g := (if d < 0 then -d else d) as int32;
  }

  method RowPlain(rgb: seq<u8>, row: nat, w: nat, above: int32) returns (total: int32)
    requires w >= 3 && row + 3 * w <= |rgb| && 0 <= above as int && above as int + 255 * (w - 2) <= INT_MAX
    ensures total as int == above as int + RowEnergy(rgb, row, w - 1)
  {
    total := above;
    for x := 1 to w - 1
      invariant total as int == above as int + RowEnergy(rgb, row, x)
    {
      var g := GradientAt(rgb, row, x);
      total := total + g;
    }
  }

  /** The plain loop. */
  method SobelEnergy(rgb: seq<u8>, w: nat, h: nat) returns (total: int32)
    requires |rgb| == 3 * (h * w) && (w >= 3 && h >= 3 ==> Most(w, h - 2) <= INT_MAX)
    ensures w < 3 || h < 3 ==> total == 0
    ensures w >= 3 && h >= 3 ==> total as int == Energy(rgb, w, h, h - 1)
  {
    total := 0;
    if w < 3 || h < 3 {
      return;
    }
    for y := 1 to h - 1
      invariant total as int == Energy(rgb, w, h, y)
    {
      RoomForRow(rgb, w, h, y);
      total := RowPlain(rgb, RowStart(w, y), w, total);
    }
  }

  /** Four gradients are the next four columns. */
  lemma FourColumns(rgb: seq<u8>, row: nat, x: nat)
    requires 1 <= x && row + 3 * (x + 4) + 1 < |rgb|
    ensures RowEnergy(rgb, row, x + 4) == RowEnergy(rgb, row, x) + Gradient(rgb, row, x) + Gradient(rgb, row, x + 1)
      + Gradient(rgb, row, x + 2) + Gradient(rgb, row, x + 3)
  {
    assert RowEnergy(rgb, row, x + 1) == RowEnergy(rgb, row, x) + Gradient(rgb, row, x);
    assert RowEnergy(rgb, row, x + 3) == RowEnergy(rgb, row, x + 2) + Gradient(rgb, row, x + 2);
  }

  lemma EightColumns(rgb: seq<u8>, row: nat, x: nat)
    requires 1 <= x && row + 3 * (x + 8) + 1 < |rgb|
    ensures RowEnergy(rgb, row, x + 8) == RowEnergy(rgb, row, x)
      + Gradient(rgb, row, x) + Gradient(rgb, row, x + 1) + Gradient(rgb, row, x + 2) + Gradient(rgb, row, x + 3)
      + Gradient(rgb, row, x + 4) + Gradient(rgb, row, x + 5) + Gradient(rgb, row, x + 6) + Gradient(rgb, row, x + 7)
  {
    var y := x + 4;
    FourColumns(rgb, row, x);
    FourColumns(rgb, row, y);
    assert y + 1 == x + 5 && y + 2 == x + 6 && y + 3 == x + 7 && y + 4 == x + 8;
  }

  /** Eight gradients at a time: together they are the next eight columns. */
  method EightGradients(rgb: seq<u8>, row: nat, x: nat) returns (sum: int32)
    requires 1 <= x && row + 3 * (x + 8) + 1 < |rgb|
    ensures sum as int == RowEnergy(rgb, row, x + 8) - RowEnergy(rgb, row, x)
  {
    var g0 := GradientAt(rgb, row, x);
    var g1 := GradientAt(rgb, row, x + 1);
    var g2 := GradientAt(rgb, row, x + 2);
    var g3 := GradientAt(rgb, row, x + 3);
    var g4 := GradientAt(rgb, row, x + 4);
    var g5 := GradientAt(rgb, row, x + 5);
    var g6 := GradientAt(rgb, row, x + 6);
    var g7 := GradientAt(rgb, row, x + 7);
    EightColumns(rgb, row, x);
    sum := g0 + g1 + g2 + g3 + g4 + g5 + g6 + g7;
  }

  /** One row, eight columns at a time and then the remainder. */
  method RowNw(rgb: seq<u8>, row: nat, w: nat, above: int32) returns (total: int32)
    requires w >= 3 && row + 3 * w <= |rgb| && 0 <= above as int && above as int + 255 * (w - 2) <= INT_MAX
    ensures total as int == above as int + RowEnergy(rgb, row, w - 1)
  {
    total := above;
    var x := 1;
    while x + 8 < w - 1
      invariant 1 <= x <= w - 1 && total as int == above as int + RowEnergy(rgb, row, x)
    {
      var sum := EightGradients(rgb, row, x);
      total := total + sum;
      x := x + 8;
    }
    while x < w - 1
      invariant 1 <= x <= w - 1 && total as int == above as int + RowEnergy(rgb, row, x)
    {
      var g := GradientAt(rgb, row, x);
      total := total + g;
      x := x + 1;
    }
  }

  /** The unrolled loop computes the same, and its totals stay in 32 bits too. */
  method SobelEnergyNw(rgb: seq<u8>, w: nat, h: nat) returns (total: int32)
    requires |rgb| == 3 * (h * w) && (w >= 3 && h >= 3 ==> Most(w, h - 2) <= INT_MAX)
    ensures w < 3 || h < 3 ==> total == 0
    ensures w >= 3 && h >= 3 ==> total as int == Energy(rgb, w, h, h - 1)
  {
    total := 0;
    if w < 3 || h < 3 {
      return;
    }
    for y := 1 to h - 1
      invariant total as int == Energy(rgb, w, h, y)
    {
      RoomForRow(rgb, w, h, y);
      total := RowNw(rgb, RowStart(w, y), w, total);
    }
  }

  // ----- What the energy depends on -----

  /** Two images have the same green bytes in the rows between the first and the last. */
  ghost predicate SameInnerGreen(a: seq<u8>, b: seq<u8>, w: nat, h: nat)
    requires Image(a, w, h) && Image(b, w, h)
  {
    forall y, x :: 1 <= y < h - 1 && 0 <= x < w ==> SameGreen(a, b, w, y, x)
  }

  predicate SameGreen(a: seq<u8>, b: seq<u8>, w: nat, y: nat, x: nat) { SameAt(a, b, 3 * (y * w + x) + 1) }

  predicate SameAt(a: seq<u8>, b: seq<u8>, k: nat) { k < |a| && k < |b| && a[k] == b[k] }

  lemma {:induction false} RowOfGreen(a: seq<u8>, b: seq<u8>, row: nat, x: nat)
    requires 1 <= x && row + 3 * x + 1 < |a| == |b|
    requires forall i :: 0 <= i <= x ==> SameAt(a, b, row + 3 * i + 1)
    ensures RowEnergy(a, row, x) == RowEnergy(b, row, x)
  {
    if x > 1 {
      RowOfGreen(a, b, row, x - 1);
      assert SameAt(a, b, row + 3 * x + 1) && SameAt(a, b, row + 3 * (x - 2) + 1);
    }
  }

  lemma {:induction false} EnergyOfGreen(a: seq<u8>, b: seq<u8>, w: nat, h: nat, y: nat)
    requires Image(a, w, h) && Image(b, w, h) && SameInnerGreen(a, b, w, h) && 1 <= y <= h - 1
    ensures Energy(a, w, h, y) == Energy(b, w, h, y)
  {
    if y > 1 {
      EnergyOfGreen(a, b, w, h, y - 1);
      RowFits(w, h, y - 1);
      var row := RowStart(w, y - 1);
      forall i | 0 <= i <= w - 1 ensures SameAt(a, b, row + 3 * i + 1) {
        assert SameGreen(a, b, w, y - 1, i);
      }
      RowOfGreen(a, b, row, w - 1);
    }
  }

  /** The energy of an image depends on nothing but the green bytes of its inner rows. */
  lemma OnlyInnerGreenCounts(a: seq<u8>, b: seq<u8>, w: nat, h: nat)
    requires Image(a, w, h) && Image(b, w, h) && SameInnerGreen(a, b, w, h)
    ensures Energy(a, w, h, h - 1) == Energy(b, w, h, h - 1)
  {
    EnergyOfGreen(a, b, w, h, h - 1);
  }

  // ----- The bound is the exact one -----

  /** Two black and two white columns in turn. */
  function Stripe(x: nat): u8 { if x % 4 < 2 then 0 else 255 }

  function StripedRow(w: nat): (row: seq<u8>)
    ensures |row| == 3 * w
  {
    seq(3 * w, k requires 0 <= k < 3 * w => Stripe(k / 3))
  }

  function Stripes(w: nat, h: nat): (rgb: seq<u8>)
    ensures |rgb| == 3 * (h * w)
  {
    if h == 0 then []
    else
      NextRow(w, h - 1);
      Stripes(w, h - 1) + StripedRow(w)
  }

  lemma {:induction false} StripesAt(w: nat, h: nat, y: nat, k: nat)
    requires y < h && k < 3 * w
    ensures RowStart(w, y) + k < 3 * (h * w) && Stripes(w, h)[RowStart(w, y) + k] == Stripe(k / 3)
  {
    RowFits(w, h, y);
    if y == h - 1 {
      assert RowStart(w, y) == |Stripes(w, h - 1)|;
    } else {
      StripesAt(w, h - 1, y, k);
    }
  }

  lemma StripesGreen(w: nat, h: nat, y: nat, x: nat)
    requires y < h && x < w
    ensures RowStart(w, y) + 3 * x + 1 < 3 * (h * w) && Green(Stripes(w, h), RowStart(w, y), x) == Stripe(x) as int
  {
    StripesAt(w, h, y, 3 * x + 1);
    assert (3 * x + 1) / 3 == x;
  }

  lemma StripesAlternate(x: nat)
    requires x >= 1
    ensures Abs(Stripe(x + 1) as int - Stripe(x - 1) as int) == 255
  {
  }

  lemma StripedGradient(w: nat, h: nat, y: nat, x: nat)
    requires y < h && 1 <= x && x + 1 < w
    ensures RowStart(w, y) + 3 * (x + 1) + 1 < 3 * (h * w) && Gradient(Stripes(w, h), RowStart(w, y), x) == 255
  {
    StripesGreen(w, h, y, x + 1);
    StripesGreen(w, h, y, x - 1);
    StripesAlternate(x);
  }

  lemma {:induction false} StripedRowEnergy(w: nat, h: nat, y: nat, x: nat)
    requires y < h && 1 <= x <= w - 1
    ensures RowStart(w, y) + 3 * x + 1 < 3 * (h * w) && RowEnergy(Stripes(w, h), RowStart(w, y), x) == 255 * (x - 1)
  {
    RowFits(w, h, y);
    if x > 1 {
      StripedRowEnergy(w, h, y, x - 1);
      StripedGradient(w, h, y, x - 1);
    }
  }

  lemma {:induction false} StripedEnergy(w: nat, h: nat, y: nat)
    requires w >= 3 && h >= 3 && 1 <= y <= h
    ensures Energy(Stripes(w, h), w, h, y) == Most(w, y - 1)
  {
    if y > 1 {
      StripedEnergy(w, h, y - 1);
      StripedRowEnergy(w, h, y - 1, w - 1);
      MostGrows(w, y - 2, y - 1);
    }
  }

  /** The energy of every image of this size fits a signed 32-bit total exactly when 255 * (w - 2) * (h - 2)
      does. */
  lemma FitsIff(w: nat, h: nat)
    requires w >= 3 && h >= 3
    ensures (forall rgb: seq<u8> :: Image(rgb, w, h) ==> Energy(rgb, w, h, h - 1) <= INT_MAX) <==> Most(w, h - 2) <= INT_MAX
  {
    if Most(w, h - 2) <= INT_MAX {
      forall rgb: seq<u8> | Image(rgb, w, h) ensures Energy(rgb, w, h, h - 1) <= INT_MAX {
        EnergyBound(rgb, w, h, h - 1);
      }
    } else {
      StripedEnergy(w, h, h - 1);
      assert Image(Stripes(w, h), w, h);
    }
  }

  /** The 3280 by 2464 sensor is within it. */
  lemma SensorFits()
    ensures Most(3280, 2464 - 2) <= INT_MAX
  {
  }
}
