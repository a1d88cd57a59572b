/**
 The parcels that createFromParcel (libmocha/camera/VendorTagDescriptor.cpp) reads, by their layout alone: a count,
 four cells for each tag, and a counted list of section names if there is a tag.
 */
module VendorWire {
  import opened Basics
  import opened VendorTags
  import opened VendorParcel
  import opened VendorRoundTrip

  /** A vendor tag, a type that exists and a name. */
  predicate GoodCells(e: Entry) {
    BOUNDARY <= e.tag < UINT32 && 0 <= e.tagType < NUM_TYPES && e.name != "" && e.section < UINT32
  }

  ghost predicate AllGood(es: seq<Entry>) {
    forall k :: 0 <= k < |es| ==> GoodCells(es[k])
  }

  function EntryCells(e: Entry): (cells: Parcel)
    ensures |cells| == 4
  {
    [Int(ToInt32(e.tag)), Int(e.tagType), Str(e.name), Int(ToInt32(e.section))]
  }

  function EntriesCells(es: seq<Entry>): (cells: Parcel)
    ensures |cells| == 4 * |es|
  {
    if es == [] then [] else EntryCells(es[0]) + EntriesCells(es[1..])
  }

  // ----- The tags -----

  lemma CellsAt(p: Parcel, pos: nat, e: Entry)
    ensures At(p, pos, EntryCells(e)) <==>
      && pos + 4 <= |p| && p[pos] == Int(ToInt32(e.tag)) && p[pos + 1] == Int(e.tagType)
      && p[pos + 2] == Str(e.name) && p[pos + 3] == Int(ToInt32(e.section))
  {
    var cells := EntryCells(e);
    if At(p, pos, cells) {
      assert p[pos + 0] == cells[0] && p[pos + 1] == cells[1] && p[pos + 2] == cells[2] && p[pos + 3] == cells[3];
    }
  }

  /** A tag is read exactly where its cells stand. */
  lemma ReadEntryIff(p: Parcel, pos: nat, e: Entry)
    requires Int32Cells(p)
    ensures ReadEntry(p, pos) == GoodEntry(e) <==> At(p, pos, EntryCells(e)) && GoodCells(e)
  {
    CellsAt(p, pos, e);
  }

  lemma EntriesAt(p: Parcel, pos: nat, es: seq<Entry>)
    requires es != []
    ensures At(p, pos, EntriesCells(es)) <==> At(p, pos, EntryCells(es[0])) && At(p, pos + 4, EntriesCells(es[1..]))
  {
    var a, b := EntryCells(es[0]), EntriesCells(es[1..]);
    if At(p, pos, a + b) {
      AtParts(p, pos, a, b);
    }
    if At(p, pos, a) && At(p, pos + 4, b) {
      forall k | 0 <= k < |a + b| ensures p[pos + k] == (a + b)[k] {
        assert k >= 4 ==> p[pos + 4 + (k - 4)] == b[k - 4];
      }
    }
  }

  lemma AllGoodCons(es: seq<Entry>)
    requires es != []
    ensures AllGood(es) <==> GoodCells(es[0]) && AllGood(es[1..])
  {
    assert forall k :: 0 < k < |es| ==> es[k] == es[1..][k - 1];
    if GoodCells(es[0]) && AllGood(es[1..]) {
      forall k | 0 <= k < |es| ensures GoodCells(es[k]) {
        assert k > 0 ==> GoodCells(es[1..][k - 1]);
      }
    }
    if AllGood(es) {
      forall k | 0 <= k < |es[1..]| ensures GoodCells(es[1..][k]) {
        assert GoodCells(es[k + 1]);
      }
    }
  }

  /** Tags are read exactly where their cells stand, one behind the other. */
  lemma {:induction false} ReadEntriesIff(p: Parcel, pos: nat, es: seq<Entry>, next: nat)
    requires Int32Cells(p)
    ensures ReadEntries(p, pos, |es|) == GoodEntries(es, next)
       <==> next == pos + 4 * |es| && (es == [] || (At(p, pos, EntriesCells(es)) && AllGood(es)))
    decreases |es|
  {
    if es != [] {
      var r, more := ReadEntry(p, pos), ReadEntries(p, pos + 4, |es| - 1);
      ReadEntryIff(p, pos, es[0]);
      EntriesAt(p, pos, es);
      AllGoodCons(es);
      ReadEntriesIff(p, pos + 4, es[1..], next);
      assert es == [es[0]] + es[1..];
      if r.GoodEntry? && more.GoodEntries? {
        assert ([r.entry] + more.entries)[0] == r.entry && ([r.entry] + more.entries)[1..] == more.entries;
      }
    }
  }

  // ----- The section names -----

  ghost predicate NoEmpty(names: seq<string>) { "" !in names }

  lemma StringsAt(p: Parcel, pos: nat, names: seq<string>)
    requires names != []
    ensures At(p, pos, EncodedStrings(names)) <==>
      pos < |p| && p[pos] == Str(names[0]) && At(p, pos + 1, EncodedStrings(names[1..]))
  {
    var rest := EncodedStrings(names[1..]);
    if At(p, pos, [Str(names[0])] + rest) {
      AtCons(p, pos, Str(names[0]), rest);
    }
    if pos < |p| && p[pos] == Str(names[0]) && At(p, pos + 1, rest) {
      forall k | 0 <= k < |rest| + 1 ensures p[pos + k] == ([Str(names[0])] + rest)[k] {
        assert k >= 1 ==> p[pos + 1 + (k - 1)] == rest[k - 1];
      }
    }
  }

  /** Names are read exactly where their cells stand, none of them empty. */
  lemma {:induction false} ReadNamesIff(p: Parcel, pos: nat, names: seq<string>)
    ensures ReadNames(p, pos, |names|) == GoodNames(names)
       <==> names == [] || (At(p, pos, EncodedStrings(names)) && NoEmpty(names))
    decreases |names|
  {
    if names != [] {
      var more := ReadNames(p, pos + 1, |names| - 1);
      StringsAt(p, pos, names);
      ReadNamesIff(p, pos + 1, names[1..]);
      assert names == [names[0]] + names[1..];
      if StringAt(p, pos) != "" && more.GoodNames? {
        assert ([StringAt(p, pos)] + more.names)[0] == StringAt(p, pos) && ([StringAt(p, pos)] + more.names)[1..] == more.names;
      }
    }
  }

  lemma {:induction false} NamesCount(p: Parcel, pos: nat, n: nat)
    ensures ReadNames(p, pos, n).GoodNames? ==> |ReadNames(p, pos, n).names| == n
    decreases n
  {
    if n > 0 {
      NamesCount(p, pos + 1, n - 1);
    }
  }

  // ----- The parcel -----

  /** The parcel begins with these tags and, behind them if there are any, these section names. */
  ghost predicate Carries(p: Parcel, es: seq<Entry>, names: seq<string>) {
    && 0 < |p| && p[0] == Int(|es|) && AllGood(es) && NoEmpty(names)
    && (if es == [] then names == []
        else
          var pos := 1 + 4 * |es|;
          && At(p, 1, EntriesCells(es)) && pos < |p| && p[pos].Int? && ToUint32(p[pos].v) == |names|
          && (names == [] || At(p, pos + 1, EncodedStrings(names))))
  }

  /** The greatest section index of any tag. */
  function MaxSection(es: seq<Entry>): nat {
    if es == [] then 0
    else if es[|es| - 1].section > MaxSection(es[..|es| - 1]) then es[|es| - 1].section else MaxSection(es[..|es| - 1])
  }

  /** The position of the last entry of a tag, or -1. */
  function LastEntry(es: seq<Entry>, tag: nat): (k: int)
    ensures -1 <= k < |es| && (k >= 0 ==> es[k].tag == tag)
    ensures forall j :: k < j < |es| ==> es[j].tag != tag
  {
    if es == [] then -1 else if es[|es| - 1].tag == tag then |es| - 1 else LastEntry(es[..|es| - 1], tag)
  }

  /** The tables hold the last entry of every tag. */
  ghost predicate HoldsLast(t: Tables, es: seq<Entry>) {
    forall tag: nat ::
      var k := LastEntry(es, tag);
      && (tag in t.names <==> k >= 0) && (tag in t.types <==> k >= 0) && (tag in t.sectionOf <==> k >= 0)
      && (k >= 0 ==> t.names[tag] == es[k].name && t.types[tag] == es[k].tagType && t.sectionOf[tag] == es[k].section)
  }

  lemma {:induction false} FilledHoldsLast(es: seq<Entry>)
    ensures HoldsLast(Filled(es), es)
    ensures Filled(es).tags == TagsOf(es) && Filled(es).maxSection == MaxSection(es)
  {
    if es != [] {
      var front := es[..|es| - 1];
      FilledHoldsLast(front);
      assert es == front + [es[|es| - 1]];
      TagsOfMore(front, es[|es| - 1]);
    }
  }

  function TagsOf(es: seq<Entry>): (tags: seq<nat>)
    ensures |tags| == |es|
  {
    seq(|es|, k requires 0 <= k < |es| => es[k].tag)
  }

  lemma TagsOfMore(es: seq<Entry>, e: Entry)
    ensures TagsOf(es + [e]) == TagsOf(es) + [e.tag]
  {
  }

  lemma {:induction false} InsertAllMembers(l: seq<string>)
    ensures Ascends(InsertAll(l)) && |InsertAll(l)| <= |l| && forall x :: x in InsertAll(l) <==> x in l
  {
    if l != [] {
      InsertAllMembers(l[..|l| - 1]);
      InsertAscends(InsertAll(l[..|l| - 1]), l[|l| - 1]);
      InsertMembers(InsertAll(l[..|l| - 1]), l[|l| - 1]);
      assert l == l[..|l| - 1] + [l[|l| - 1]];
    }
  }

  /** The descriptor of a parcel: for every tag its last entry, the section names in order without
      repetitions, and the reverse index entered tag by tag. */
  ghost predicate Describes(d: Descriptor, es: seq<Entry>, names: seq<string>) {
    && d.tagCount == |es| && Ascends(d.sections) && (forall x :: x in d.sections <==> x in names)
    && HoldsLast(Tables(TagsOf(es), d.names, d.sectionOf, d.types, 0), es)
    && (forall t :: t in TagsOf(es) ==> t in d.names && t in SectionNames(d))
    && d.reverse == ReverseOf(TagsOf(es), d.names, SectionNames(d))
  }

  /** Every tag's section is one of the distinct names. */
  ghost predicate SectionsExist(es: seq<Entry>, names: seq<string>) {
    forall k :: 0 <= k < |es| && k == LastEntry(es, es[k].tag) ==> es[k].section < |InsertAll(names)|
  }

  lemma LastOfListed(es: seq<Entry>, k: nat)
    requires k < |es|
    ensures k <= LastEntry(es, es[k].tag)
  {
  }

  lemma BoundsIff(es: seq<Entry>, names: seq<string>)
    ensures InBounds(Filled(es), InsertAll(names)) <==> SectionsExist(es, names)
  {
    var t := Filled(es);
    FilledHoldsLast(es);
    if SectionsExist(es, names) {
      forall u | u in t.tags ensures t.sectionOf[u] < |InsertAll(names)| {
        var k := LastEntry(es, u);
        assert u in t.sectionOf;
      }
    }
    if InBounds(t, InsertAll(names)) {
      forall k | 0 <= k < |es| && k == LastEntry(es, es[k].tag) ensures es[k].section < |InsertAll(names)| {
        assert TagsOf(es)[k] == es[k].tag && es[k].tag in t.tags;
      }
    }
  }

  lemma BuiltDescribes(es: seq<Entry>, names: seq<string>)
    ensures Built(Filled(es), InsertAll(names)).Ok? <==> SectionsExist(es, names)
    ensures SectionsExist(es, names) ==> Describes(Built(Filled(es), InsertAll(names)).value, es, names)
    ensures !SectionsExist(es, names) ==> Built(Filled(es), InsertAll(names)) == Err(OUT_OF_BOUNDS)
  {
    BoundsIff(es, names);
    FilledHoldsLast(es);
    InsertAllMembers(names);
    if SectionsExist(es, names) {
      SectionNamesKnown(es, Built(Filled(es), InsertAll(names)).value);
    }
  }

  lemma SectionNamesKnown(es: seq<Entry>, d: Descriptor)
    requires d.names == Filled(es).names && d.sectionOf == Filled(es).sectionOf && InBounds(Filled(es), d.sections)
    ensures forall t :: t in TagsOf(es) ==> t in d.names && t in SectionNames(d)
  {
    FilledHoldsLast(es);
  }

  lemma NamesRead(p: Parcel, pos: nat, n: nat, t: Tables, names: seq<string>)
    requires Int32Cells(p) && n != 0 && IntAt(p, pos) && ToUint32(p[pos].v) == |names|
    requires forall u :: u in t.tags ==> u in t.names && u in t.sectionOf
    requires names == [] || (At(p, pos + 1, EncodedStrings(names)) && NoEmpty(names))
    ensures WithSections(p, pos, n, t) ==
      if |names| < (t.maxSection + 1) % UINT32 then Err(BAD_VALUE) else Built(t, InsertAll(names))
  {
    ReadNamesIff(p, pos + 1, names);
  }

  lemma DecodedBy(p: Parcel, es: seq<Entry>, next: nat)
    requires Int32Cells(p) && 0 < |p| && p[0] == Int(|es|) && ReadEntries(p, 1, |es|) == GoodEntries(es, next)
    ensures Decoded(p) == WithSections(p, next, |es|, Filled(es))
  {
  }

  /** What the reader makes of these tags and names. */
  function ReadAs(es: seq<Entry>, names: seq<string>): Result {
    if es != [] && |names| < (MaxSection(es) + 1) % UINT32 then Err(BAD_VALUE) else Built(Filled(es), InsertAll(names))
  }

  lemma CarriedIsRead(p: Parcel, es: seq<Entry>, names: seq<string>)
    requires Int32Cells(p) && Carries(p, es, names)
    ensures Decoded(p) == ReadAs(es, names)
  {
    ReadEntriesIff(p, 1, es, 1 + 4 * |es|);
    DecodedBy(p, es, 1 + 4 * |es|);
    SectionsRead(p, es, names);
  }

  lemma SectionsRead(p: Parcel, es: seq<Entry>, names: seq<string>)
    requires Int32Cells(p) && Carries(p, es, names)
    ensures WithSections(p, 1 + 4 * |es|, |es|, Filled(es)) == ReadAs(es, names)
  {
    FilledHoldsLast(es);
    if es != [] {
      NamesRead(p, 1 + 4 * |es|, |es|, Filled(es), names);
    }
  }

  lemma EntriesAreCarried(p: Parcel) returns (es: seq<Entry>)
    requires Int32Cells(p) && Decoded(p).Ok?
    ensures 0 < |p| && p[0] == Int(|es|) && ReadEntries(p, 1, |es|) == GoodEntries(es, 1 + 4 * |es|)
    ensures AllGood(es) && (es != [] ==> At(p, 1, EntriesCells(es)))
  {
    es := ReadEntries(p, 1, p[0].v).entries;
    ReadEntriesIff(p, 1, es, ReadEntries(p, 1, p[0].v).next);
  }

  lemma NamesAreCarried(p: Parcel, pos: nat, n: nat, t: Tables) returns (names: seq<string>)
    requires Int32Cells(p) && n != 0 && forall u :: u in t.tags ==> u in t.names && u in t.sectionOf
    requires WithSections(p, pos, n, t).Ok?
    ensures IntAt(p, pos) && ToUint32(p[pos].v) == |names| && NoEmpty(names)
    ensures names == [] || At(p, pos + 1, EncodedStrings(names))
  {
    var count := ToUint32(p[pos].v);
    names := ReadNames(p, pos + 1, count).names;
    NamesCount(p, pos + 1, count);
    ReadNamesIff(p, pos + 1, names);
  }

  /** Everything that is read is there. */
  lemma ReadIsCarried(p: Parcel) returns (es: seq<Entry>, names: seq<string>)
    requires Int32Cells(p) && Decoded(p).Ok?
    ensures Carries(p, es, names)
  {
    es := EntriesAreCarried(p);
    names := [];
    if es != [] {
      DecodedBy(p, es, 1 + 4 * |es|);
      names := NamesAreCarried(p, 1 + 4 * |es|, |es|, Filled(es));
    }
  }

  /** The reader accepts exactly the parcels that carry tags and names with enough names for the greatest
      section index, counted modulo 2^32, and with a distinct name for every tag's section; and then the
      descriptor is theirs, a repeated tag with its last entry. */
  lemma AcceptsIff(p: Parcel)
    requires Int32Cells(p)
    ensures Decoded(p).Ok? <==> exists es, names :: Carries(p, es, names) && Suffice(es, names)
    ensures forall es, names :: Carries(p, es, names) ==> Answers(Decoded(p), es, names)
  {
    forall es, names | Carries(p, es, names) ensures Answers(Decoded(p), es, names) {
      CarriedIsAnswered(p, es, names);
    }
    if Decoded(p).Ok? {
      var es, names := ReadIsCarried(p);
      assert Answers(Decoded(p), es, names);
    }
  }

  ghost predicate Answers(r: Result, es: seq<Entry>, names: seq<string>) {
    if Suffice(es, names) then r.Ok? && Describes(r.value, es, names)
    else r == Err(if es != [] && |names| < (MaxSection(es) + 1) % UINT32 then BAD_VALUE else OUT_OF_BOUNDS)
  }

  lemma ReadAsAnswers(es: seq<Entry>, names: seq<string>)
    ensures Answers(ReadAs(es, names), es, names)
  {
    BuiltDescribes(es, names);
  }

  lemma CarriedIsAnswered(p: Parcel, es: seq<Entry>, names: seq<string>)
    requires Int32Cells(p) && Carries(p, es, names)
    ensures Answers(Decoded(p), es, names)
  {
    CarriedIsRead(p, es, names);
    ReadAsAnswers(es, names);
  }

  ghost predicate Suffice(es: seq<Entry>, names: seq<string>) {
    (es != [] ==> |names| >= (MaxSection(es) + 1) % UINT32) && SectionsExist(es, names)
  }

  /** A parcel without a count is too short, and a negative count is a bad value. */
  lemma BadCount(p: Parcel)
    requires Int32Cells(p)
    ensures |p| == 0 || p[0].Str? ==> Decoded(p) == Err(NOT_ENOUGH_DATA)
    ensures 0 < |p| && p[0].Int? && p[0].v < 0 ==> Decoded(p) == Err(BAD_VALUE)
  {
  }
}
