/**
 The decimal text of 32-bit integers as the camera parameter code uses it (libmocha/camera/CameraParameters.cpp):
 `sprintf("%d")`, `strtol` in base 10 on a platform with a 32-bit long, pairs such as "640x480" and
 comma-separated lists of pairs. A cursor is an index into the string.
 */
module Decimal {
  import opened Basics

  const LONG_MAX := 0x7fff_ffff
  const LONG_MIN := -0x8000_0000

  predicate Int32(n: int) { LONG_MIN <= n <= LONG_MAX }

  predicate IsDigit(c: char) { '0' <= c <= '9' }

  predicate IsSpace(c: char) { c == ' ' || '\U{09}' <= c <= '\U{0D}' }

  function DigitOf(c: char): int { c as int - '0' as int }

  function Digit(d: nat): (c: char)
    requires d < 10
    ensures IsDigit(c) && DigitOf(c) == d
  {
    (d + '0' as int) as char
  }

  function PrintNat(n: nat): (s: string)
    ensures s != ""
  {
    if n < 10 then [Digit(n)] else PrintNat(n / 10) + [Digit(n % 10)]
  }

  lemma PrintMore(n: nat, d: nat)
    requires 0 < n && d < 10
    ensures PrintNat(10 * n + d) == PrintNat(n) + [Digit(d)]
  {
    assert (10 * n + d) / 10 == n && (10 * n + d) % 10 == d;
  }

  function Print(n: int): string {
    if n < 0 then "-" + PrintNat(-n) else PrintNat(n)
  }

  function SkipSpaces(s: string, i: nat): (k: nat)
    requires i <= |s|
    ensures i <= k <= |s|
    decreases |s| - i
  {
    if i < |s| && IsSpace(s[i]) then SkipSpaces(s, i + 1) else i
  }

  function SkipDigits(s: string, i: nat): (k: nat)
    requires i <= |s|
    ensures i <= k <= |s|
    decreases |s| - i
  {
    if i < |s| && IsDigit(s[i]) then SkipDigits(s, i + 1) else i
  }

  /** The value of the digits from `i` to `j`. */
  function Value(s: string, i: nat, j: nat): int
    requires j <= |s|
  {
    if j <= i then 0 else 10 * Value(s, i, j - 1) + DigitOf(s[j - 1])
  }

  function Clamp(n: int): int {
    if n < LONG_MIN then LONG_MIN else if n > LONG_MAX then LONG_MAX else n
  }

  /** A number and the cursor behind it. */
  datatype Read = Read(value: int, end: nat)

  /** strtol at cursor `i`: without a number the value is 0 and the cursor does not move. */
  function Strtol(s: string, i: nat): (r: Read)
    requires i <= |s|
    ensures i <= r.end <= |s| && Int32(r.value)
  {
    var w := SkipSpaces(s, i);
    var signed := w < |s| && (s[w] == '-' || s[w] == '+');
    var start := if signed then w + 1 else w;
    var end := SkipDigits(s, start);
    if end == start then Read(0, i)
    else if signed && s[w] == '-' then Read(Clamp(-Value(s, start, end)), end)
    else Read(Clamp(Value(s, start, end)), end)
  }

  ghost predicate NoDigitAt(s: string, k: nat) {
    k < |s| ==> !IsDigit(s[k])
  }

  /** Printed digits are read back as their number. */
  lemma {:induction false} ValueOfPrinted(s: string, i: nat, n: nat)
    requires At(s, i, PrintNat(n))
    ensures Value(s, i, i + |PrintNat(n)|) == n
    ensures forall k :: i <= k < i + |PrintNat(n)| ==> IsDigit(s[k])
  {
    var end := i + |PrintNat(n)|;
    if n < 10 {
      assert s[i] == PrintNat(n)[0];
      assert Value(s, i, i) == 0;
    } else {
      AtParts(s, i, PrintNat(n / 10), [Digit(n % 10)]);
      ValueOfPrinted(s, i, n / 10);
      assert s[end - 1] == [Digit(n % 10)][0];
    }
  }

  lemma {:induction false} SkipDigitsTo(s: string, i: nat, k: nat)
    requires i <= k <= |s| && (forall j :: i <= j < k ==> IsDigit(s[j])) && NoDigitAt(s, k)
    ensures SkipDigits(s, i) == k
    decreases k - i
  {
    if i < k {
      SkipDigitsTo(s, i + 1, k);
    }
  }

  /** The white space of the C locale. */
  const SPACES := [' ', '\t', '\n', '\U{0B}', '\U{0C}', '\r']

  /** White space and then an optional sign. */
  ghost predicate Lead(spaces: string, sign: string) {
    (forall c :: c in spaces ==> c in SPACES) && (sign == "" || sign == "+" || sign == "-")
  }

  function Signed(sign: string, n: int): int { if sign == "-" then -n else n }

  lemma {:induction false} SkipSpacesTo(s: string, i: nat, k: nat)
    requires i <= k <= |s| && (forall j :: i <= j < k ==> s[j] in SPACES) && (k < |s| ==> s[k] !in SPACES)
    ensures SkipSpaces(s, i) == k
    decreases k - i
  {
    if i < k {
      SkipSpacesTo(s, i + 1, k);
    }
  }

  /** strtol by the places where the white space, the sign and the digits end. */
  lemma StrtolBy(s: string, i: nat, w: nat, start: nat, end: nat, negative: bool)
    requires i <= w <= start < end <= |s| && SkipSpaces(s, i) == w && SkipDigits(s, start) == end
    requires if s[w] == '-' || s[w] == '+' then start == w + 1 && negative == (s[w] == '-') else start == w && !negative
    ensures Strtol(s, i) == Read(Clamp(if negative then -Value(s, start, end) else Value(s, start, end)), end)
  {
  }

  /** The number behind them, brought into the range of a long. */
  lemma StrtolReads(s: string, i: nat, spaces: string, sign: string, n: nat)
    requires Lead(spaces, sign) && At(s, i, spaces + (sign + PrintNat(n)))
    requires NoDigitAt(s, i + |spaces| + |sign| + |PrintNat(n)|)
    ensures var v := Signed(sign, n);
      Strtol(s, i) == Read(if v > 0x7fff_ffff then 0x7fff_ffff else if v < -0x8000_0000 then -0x8000_0000 else v,
                           i + |spaces| + |sign| + |PrintNat(n)|)
  {
    var w := i + |spaces|;
    var start := w + |sign|;
    var end := start + |PrintNat(n)|;
    LeadAt(s, i, spaces, sign, PrintNat(n));
    ValueOfPrinted(s, start, n);
    assert IsDigit(s[start]);
    SkipSpacesTo(s, i, w);
    SkipDigitsTo(s, start, end);
    StrtolBy(s, i, w, start, end, sign == "-");
  }

  lemma LeadAt(s: string, i: nat, spaces: string, sign: string, rest: string)
    requires Lead(spaces, sign) && At(s, i, spaces + (sign + rest))
    ensures var w := i + |spaces|;
      && (forall j :: i <= j < w ==> s[j] in SPACES) && At(s, w + |sign|, rest)
      && (sign != "" ==> w < |s| && s[w] == sign[0])
  {
    AtParts(s, i, spaces, sign + rest);
    AtParts(s, i + |spaces|, sign, rest);
    forall j | i <= j < i + |spaces| ensures s[j] in SPACES {
      assert s[j] == spaces[j - i];
    }
    if sign != "" {
      assert s[i + |spaces|] == sign[0];
    }
  }

  /** Reading a printed number gives it back and stops right behind it, whatever non-digit follows. */
  lemma StrtolInvertsPrint(s: string, i: nat, n: int)
    requires Int32(n) && At(s, i, Print(n)) && NoDigitAt(s, i + |Print(n)|)
    ensures Strtol(s, i) == Read(n, i + |Print(n)|)
  {
    if n < 0 {
      assert "" + ("-" + PrintNat(-n)) == Print(n);
      StrtolReads(s, i, "", "-", -n);
    } else {
      assert "" + ("" + PrintNat(n)) == Print(n);
      StrtolReads(s, i, "", "", n);
    }
  }

  /** Without a digit behind them nothing is read, and the cursor stays before the white space. */
  lemma StrtolReadsNothing(s: string, i: nat, spaces: string, sign: string)
    requires Lead(spaces, sign) && At(s, i, spaces + (sign + "")) && NoDigitAt(s, i + |spaces| + |sign|)
    requires sign == "" && i + |spaces| < |s| ==> s[i + |spaces|] !in SPACES && s[i + |spaces|] != '+' && s[i + |spaces|] != '-'
    ensures Strtol(s, i) == Read(0, i)
  {
    var w := i + |spaces|;
    LeadAt(s, i, spaces, sign, "");
    SkipSpacesTo(s, i, w);
    SkipDigitsTo(s, w + |sign|, w + |sign|);
  }

  /** Wherever `a` stands in front of a non-digit, strtol reads exactly it, as `n`. */
  ghost predicate NumberText(a: string, n: int) {
    forall s: string, i: nat :: At(s, i, a) && NoDigitAt(s, i + |a|) ==> Strtol(s, i) == Read(n, i + |a|)
  }

  lemma PrintedNumber(n: int)
    requires Int32(n)
    ensures NumberText(Print(n), n)
  {
    forall s: string, i: nat | At(s, i, Print(n)) && NoDigitAt(s, i + |Print(n)|)
      ensures Strtol(s, i) == Read(n, i + |Print(n)|)
    {
      StrtolInvertsPrint(s, i, n);
    }
  }

  datatype Pair = NoPair | SomePair(first: int, second: int, end: nat)

  /** parse_pair at cursor `i`: two numbers around a delimiter; `end` is where it stopped. */
  function ParsePair(s: string, i: nat, delim: char): (p: Pair)
    requires i <= |s|
    ensures p.SomePair? ==> i < p.end <= |s|
  {
    var a := Strtol(s, i);
    if a.end < |s| && s[a.end] == delim then
      var b := Strtol(s, a.end + 1);
      SomePair(a.value, b.value, b.end)
    else NoPair
  }

  function PairText(a: string, b: string, delim: char): string {
    a + ([delim] + b)
  }

  function PrintPair(w: int, h: int, delim: char): string {
    PairText(Print(w), Print(h), delim)
  }

  lemma PairTextAt(s: string, i: nat, a: string, b: string, delim: char)
    requires At(s, i, PairText(a, b, delim)) && !IsDigit(delim)
    ensures At(s, i, a) && i + |a| < |s| && s[i + |a|] == delim && At(s, i + |a| + 1, b)
    ensures NoDigitAt(s, i + |a|)
  {
    AtParts(s, i, a, [delim] + b);
    AtParts(s, i + |a|, [delim], b);
    assert s[i + |a|] == [delim][0];
  }

  lemma PairOfNumbers(s: string, i: nat, a: string, b: string, w: int, h: int, delim: char)
    requires NumberText(a, w) && NumberText(b, h) && !IsDigit(delim)
    requires At(s, i, PairText(a, b, delim)) && NoDigitAt(s, i + |PairText(a, b, delim)|)
    ensures ParsePair(s, i, delim) == SomePair(w, h, i + |PairText(a, b, delim)|)
  {
    PairTextAt(s, i, a, b, delim);
    assert Strtol(s, i) == Read(w, i + |a|);
    assert Strtol(s, i + |a| + 1) == Read(h, i + |a| + 1 + |b|);
  }

  lemma ParsePairInverts(s: string, i: nat, w: int, h: int, delim: char)
    requires Int32(w) && Int32(h) && !IsDigit(delim)
    requires At(s, i, PrintPair(w, h, delim)) && NoDigitAt(s, i + |PrintPair(w, h, delim)|)
    ensures ParsePair(s, i, delim) == SomePair(w, h, i + |PrintPair(w, h, delim)|)
  {
    PrintedNumber(w);
    PrintedNumber(h);
    PairOfNumbers(s, i, Print(w), Print(h), w, h, delim);
  }

  datatype Size = Size(width: int, height: int)

  function Join(texts: seq<string>, delim: char): string {
    if texts == [] then "" else if |texts| == 1 then texts[0] else PairText(texts[0], Join(texts[1..], delim), delim)
  }

  function PrintedPairs(sizes: seq<Size>): (texts: seq<string>)
    ensures |texts| == |sizes|
  {
    if sizes == [] then [] else [PrintPair(sizes[0].width, sizes[0].height, 'x')] + PrintedPairs(sizes[1..])
  }

  function PrintSizes(sizes: seq<Size>): string {
    Join(PrintedPairs(sizes), ',')
  }

  /** What parse_pair finds at every cursor of a string. */
  ghost predicate PairsIn(s: string, pairs: seq<Pair>) {
    |pairs| == |s| + 1 && forall i :: 0 <= i <= |s| && pairs[i].SomePair? ==> i < pairs[i].end <= |s|
  }

  ghost predicate PairAt(s: string, pairs: seq<Pair>, i: nat) {
    i <= |s| && i < |pairs| && pairs[i] == ParsePair(s, i, 'x')
  }

  function PairsOf(s: string): (pairs: seq<Pair>)
    ensures PairsIn(s, pairs) && forall i :: 0 <= i <= |s| ==> PairAt(s, pairs, i)
  {
    seq(|s| + 1, i requires 0 <= i <= |s| => ParsePair(s, i, 'x'))
  }

  /** The sizes from cursor `i` on, up to the first malformed one. */
  function SizesFrom(s: string, pairs: seq<Pair>, i: nat): seq<Size>
    requires PairsIn(s, pairs) && i <= |s|
    decreases |s| - i
  {
    match pairs[i]
    case NoPair => []
    case SomePair(w, h, end) =>
      if end == |s| then [Size(w, h)]
      else if s[end] == ',' then [Size(w, h)] + SizesFrom(s, pairs, end + 1)
      else []
  }

  function ParseSizes(s: string): seq<Size> {
    SizesFrom(s, PairsOf(s), 0)
  }

  /** Wherever `t` stands in front of a non-digit, parse_pair reads exactly it, as the size `z`. */
  ghost predicate SizeText(t: string, z: Size) {
    forall s: string, i: nat :: At(s, i, t) && NoDigitAt(s, i + |t|) ==>
      ParsePair(s, i, 'x') == SomePair(z.width, z.height, i + |t|)
  }

  lemma PrintedSize(z: Size)
    requires Int32(z.width) && Int32(z.height)
    ensures SizeText(PrintPair(z.width, z.height, 'x'), z)
  {
    var t := PrintPair(z.width, z.height, 'x');
    forall s: string, i: nat | At(s, i, t) && NoDigitAt(s, i + |t|)
      ensures ParsePair(s, i, 'x') == SomePair(z.width, z.height, i + |t|)
    {
      ParsePairInverts(s, i, z.width, z.height, 'x');
    }
  }

  lemma ParseNextSize(s: string, pairs: seq<Pair>, i: nat, z: Size, end: nat, sizes: seq<Size>)
    requires PairsIn(s, pairs) && sizes != [] && sizes[0] == z && i <= |s| && pairs[i] == SomePair(z.width, z.height, end)
    requires end < |s| && s[end] == ',' && SizesFrom(s, pairs, end + 1) == sizes[1..]
    ensures SizesFrom(s, pairs, i) == sizes
  {
    assert sizes == [z] + sizes[1..];
  }

  lemma ParseLastSize(s: string, pairs: seq<Pair>, i: nat, z: Size)
    requires PairsIn(s, pairs) && i <= |s| && pairs[i] == SomePair(z.width, z.height, |s|)
    ensures SizesFrom(s, pairs, i) == [z]
  {
  }

  /** Where the text of a size stands in front of a non-digit, the pair there is the size. */
  lemma PairOfSize(s: string, i: nat, t: string, z: Size)
    requires SizeText(t, z) && At(s, i, t) && NoDigitAt(s, i + |t|)
    ensures PairsOf(s)[i] == SomePair(z.width, z.height, i + |t|)
  {
    assert PairAt(s, PairsOf(s), i);
  }

  lemma NoPairAtEnd(s: string)
    ensures SizesFrom(s, PairsOf(s), |s|) == []
  {
    assert PairAt(s, PairsOf(s), |s|) && Strtol(s, |s|) == Read(0, |s|);
  }

  /** A size in front of more text, from which the rest is read. */
  lemma JoinNext(s: string, i: nat, t: string, more: string, z: Size, sizes: seq<Size>)
    requires SizeText(t, z) && At(s, i, PairText(t, more, ',')) && sizes != [] && sizes[0] == z && i + |t| + 1 <= |s|
    requires SizesFrom(s, PairsOf(s), i + |t| + 1) == sizes[1..]
    ensures SizesFrom(s, PairsOf(s), i) == sizes
  {
    PairTextAt(s, i, t, more, ',');
    PairOfSize(s, i, t, z);
    ParseNextSize(s, PairsOf(s), i, z, i + |t|, sizes);
  }

  ghost predicate SizeTexts(texts: seq<string>, sizes: seq<Size>) {
    |texts| == |sizes| && (texts == [] || (SizeText(texts[0], sizes[0]) && SizeTexts(texts[1..], sizes[1..])))
  }

  /** The texts of sizes, joined, are read at each of their cursors. */
  lemma {:induction false} ParseSizesOfJoin(s: string, i: nat, texts: seq<string>, sizes: seq<Size>)
    requires SizeTexts(texts, sizes) && At(s, i, Join(texts, ',')) && i + |Join(texts, ',')| == |s|
    ensures SizesFrom(s, PairsOf(s), i) == sizes
    decreases |sizes|
  {
    if sizes == [] {
      NoPairAtEnd(s);
    } else if |sizes| == 1 {
      PairOfSize(s, i, texts[0], sizes[0]);
      ParseLastSize(s, PairsOf(s), i, sizes[0]);
      assert sizes == [sizes[0]];
    } else {
      var t, more := texts[0], Join(texts[1..], ',');
      PairTextAt(s, i, t, more, ',');
      ParseSizesOfJoin(s, i + |t| + 1, texts[1..], sizes[1..]);
      JoinNext(s, i, t, more, sizes[0], sizes);
    }
  }

  lemma {:induction false} PrintedSizes(sizes: seq<Size>)
    requires forall k :: 0 <= k < |sizes| ==> Int32(sizes[k].width) && Int32(sizes[k].height)
    ensures SizeTexts(PrintedPairs(sizes), sizes)
  {
    if sizes != [] {
      PrintedSize(sizes[0]);
      PrintedSizes(sizes[1..]);
      assert PrintedPairs(sizes)[1..] == PrintedPairs(sizes[1..]);
    }
  }

  /** A printed list of sizes of 32-bit integers is read back whole. */
  lemma ParseSizesInverts(sizes: seq<Size>)
    requires forall k :: 0 <= k < |sizes| ==> Int32(sizes[k].width) && Int32(sizes[k].height)
    ensures ParseSizes(PrintSizes(sizes)) == sizes
  {
    PrintedSizes(sizes);
    ParseSizesOfJoin(PrintSizes(sizes), 0, PrintedPairs(sizes), sizes);
  }

  /** One turn of parseSizesList: a size and the separator or end behind it. */
  method ReadSize(s: string, pos: nat, ghost pairs: seq<Pair>) returns (found: bool, z: Size, end: nat, ghost more: seq<Size>)
    requires PairsIn(s, pairs) && PairAt(s, pairs, pos)
    ensures !found ==> SizesFrom(s, pairs, pos) == []
    ensures found ==> pos < end <= |s| && SizesFrom(s, pairs, pos) == [z] + more
    ensures found && end == |s| ==> more == []
    ensures found && end != |s| ==> more == SizesFrom(s, pairs, end + 1)
  {
    var p := ParsePair(s, pos, 'x');
    found, z, end, more := false, Size(0, 0), pos, [];
    if p.SomePair? && (p.end == |s| || s[p.end] == ',') {
      found, z, end := true, Size(p.first, p.second), p.end;
      more := if end == |s| then [] else SizesFrom(s, pairs, end + 1);
    }
  }

  /** One turn of the loop, with `sizes` read so far: it ends, or goes on from a later cursor. */
  method Turn(s: string, pos: nat, sizes: seq<Size>, ghost pairs: seq<Pair>, ghost all: seq<Size>)
    returns (done: bool, sizes': seq<Size>, pos': nat)
    requires PairsIn(s, pairs) && PairAt(s, pairs, pos) && sizes + SizesFrom(s, pairs, pos) == all
    ensures pos' <= |s| && (done ==> sizes' == all)
    ensures !done ==> pos < pos' && sizes' + SizesFrom(s, pairs, pos') == all
  {
    var found, z, end, more := ReadSize(s, pos, pairs);
    done, sizes', pos' := true, sizes, pos;
    if found {
      Regroup(sizes, [z], more);
      sizes', done := sizes + [z], end == |s|;
      if !done {
        pos' := end + 1;
      }
    }
  }

  /** parseSizesList: the cursor moves forward on every turn, so it ends on every string. */
  method ParseSizesList(sizesStr: string) returns (sizes: seq<Size>)
    ensures sizes == ParseSizes(sizesStr)
  {
    ghost var pairs := PairsOf(sizesStr);
    var done, pos: nat := false, 0;
    sizes := [];
    while !done
      invariant pos <= |sizesStr|
      invariant if done then sizes == ParseSizes(sizesStr) else sizes + SizesFrom(sizesStr, pairs, pos) == ParseSizes(sizesStr)
      decreases !done, |sizesStr| - pos
    {
      done, sizes, pos := Turn(sizesStr, pos, sizes, pairs, ParseSizes(sizesStr));
    }
  }
}
