/**
 The round trip of a vendor tag descriptor through its parcel form, for every well-formed descriptor.
 */
module VendorRoundTrip {
  import opened Basics
  import opened VendorTags
  import opened VendorParcel

  function EntryOf(d: Descriptor, t: nat): Entry
    requires t in d.names && t in d.sectionOf && t in d.types
  {
    Entry(t, d.types[t], d.names[t], d.sectionOf[t])
  }

  function EntriesOf(d: Descriptor, tags: seq<nat>): (es: seq<Entry>)
    requires Knows(d, tags)
    ensures |es| == |tags| && forall i :: 0 <= i < |es| ==> es[i] == EntryOf(d, tags[i])
  {
    seq(|tags|, i requires 0 <= i < |tags| => EntryOf(d, tags[i]))
  }

  lemma ReadEncodedTag(d: Descriptor, t: nat, p: Parcel, pos: nat)
    requires WellFormed(d) && t in d.names && Int32Cells(p) && At(p, pos, EncodedTag(d, t))
    ensures ReadEntry(p, pos) == if d.names[t] == "" then BadEntry(NOT_ENOUGH_DATA) else GoodEntry(EntryOf(d, t))
  {
    var cells := EncodedTag(d, t);
    assert p[pos + 0] == cells[0] && p[pos + 1] == cells[1] && p[pos + 2] == cells[2] && p[pos + 3] == cells[3];
  }

  ghost predicate Named(d: Descriptor, tags: seq<nat>)
    requires Knows(d, tags)
  {
    forall i :: 0 <= i < |tags| ==> d.names[tags[i]] != ""
  }

  lemma ReadFirstTag(d: Descriptor, tags: seq<nat>, p: Parcel, pos: nat, n: nat)
    requires WellFormed(d) && tags != [] && Knows(d, tags) && Knows(d, tags[1..]) && Int32Cells(p) && n > 0
    requires At(p, pos, EncodedTag(d, tags[0]))
    ensures var more := ReadEntries(p, pos + 4, n - 1);
      ReadEntries(p, pos, n) ==
        if d.names[tags[0]] == "" then BadEntries(NOT_ENOUGH_DATA)
        else if more.BadEntries? then more else GoodEntries([EntryOf(d, tags[0])] + more.entries, more.next)
    ensures EntriesOf(d, tags) == [EntryOf(d, tags[0])] + EntriesOf(d, tags[1..])
  {
    ReadEncodedTag(d, tags[0], p, pos);
  }

  /** Named tags are read back as they were written. */
  lemma {:induction false} ReadsBack(d: Descriptor, tags: seq<nat>, p: Parcel, pos: nat, end: nat)
    requires WellFormed(d) && Knows(d, tags) && Int32Cells(p) && At(p, pos, EncodedTags(d, tags))
    requires end == pos + 4 * |tags| && Named(d, tags)
    ensures ReadEntries(p, pos, |tags|) == GoodEntries(EntriesOf(d, tags), end)
    decreases |tags|
  {
    if tags != [] {
      var rest := tags[1..];
      assert Knows(d, rest);
      AtParts(p, pos, EncodedTag(d, tags[0]), EncodedTags(d, rest));
      ReadFirstTag(d, tags, p, pos, |tags|);
      NamedCons(d, tags);
      ReadsBack(d, rest, p, pos + 4, end);
    }
  }

  /** An empty name, or a count with nothing behind the tags that reads as one more, makes the reader fail. */
  lemma {:induction false} ReadFails(d: Descriptor, tags: seq<nat>, p: Parcel, pos: nat, n: nat, end: nat)
    requires WellFormed(d) && Knows(d, tags) && Int32Cells(p) && At(p, pos, EncodedTags(d, tags))
    requires end == pos + 4 * |tags| && n >= |tags| && (n != |tags| ==> ReadEntry(p, end).BadEntry?)
    requires n != |tags| || !Named(d, tags)
    ensures ReadEntries(p, pos, n).BadEntries?
    decreases |tags|
  {
    if tags != [] {
      var rest := tags[1..];
      assert Knows(d, rest);
      AtParts(p, pos, EncodedTag(d, tags[0]), EncodedTags(d, rest));
      NamedCons(d, tags);
      if d.names[tags[0]] != "" {
        ReadFails(d, rest, p, pos + 4, n - 1, end);
      }
      FailsFrom(d, tags[0], p, pos, n);
    }
  }

  /** The reader fails at a tag without a name, and where it fails behind the tag. */
  lemma FailsFrom(d: Descriptor, t: nat, p: Parcel, pos: nat, n: nat)
    requires WellFormed(d) && t in d.names && Int32Cells(p) && At(p, pos, EncodedTag(d, t)) && n > 0
    requires d.names[t] == "" || ReadEntries(p, pos + 4, n - 1).BadEntries?
    ensures ReadEntries(p, pos, n).BadEntries?
  {
    ReadEncodedTag(d, t, p, pos);
  }

  /** Reading `n` tags where `tags` were written and nothing that reads as a tag follows them. */
  lemma ReadEncodedTags(d: Descriptor, tags: seq<nat>, p: Parcel, pos: nat, n: nat, end: nat)
    requires WellFormed(d) && Knows(d, tags) && Int32Cells(p) && At(p, pos, EncodedTags(d, tags))
    requires end == pos + 4 * |tags| && n >= |tags| && (n != |tags| ==> ReadEntry(p, end).BadEntry?)
    ensures ReadEntries(p, pos, n).GoodEntries? <==> n == |tags| && Named(d, tags)
    ensures n == |tags| && Named(d, tags) ==> ReadEntries(p, pos, n) == GoodEntries(EntriesOf(d, tags), end)
  {
    if n == |tags| && Named(d, tags) {
      ReadsBack(d, tags, p, pos, end);
    } else {
      ReadFails(d, tags, p, pos, n, end);
    }
  }

  lemma NamedCons(d: Descriptor, tags: seq<nat>)
    requires tags != [] && Knows(d, tags) && Knows(d, tags[1..])
    ensures Named(d, tags) <==> d.names[tags[0]] != "" && Named(d, tags[1..])
  {
    var rest := tags[1..];
    if d.names[tags[0]] != "" && Named(d, rest) {
      forall i | 0 <= i < |tags| ensures d.names[tags[i]] != "" {
        assert i > 0 ==> tags[i] == rest[i - 1];
      }
    }
    if Named(d, tags) {
      forall i | 0 <= i < |rest| ensures d.names[rest[i]] != "" {
        assert rest[i] == tags[i + 1];
      }
    }
  }

  lemma {:induction false} ReadEncodedStrings(l: seq<string>, p: Parcel, pos: nat)
    requires At(p, pos, EncodedStrings(l))
    ensures ReadNames(p, pos, |l|) == if "" in l then EmptyName else GoodNames(l)
    decreases |l|
  {
    if l != [] {
      AtParts(p, pos, [Str(l[0])], EncodedStrings(l[1..]));
      assert p[pos + 0] == [Str(l[0])][0];
      ReadEncodedStrings(l[1..], p, pos + 1);
      assert l == [l[0]] + l[1..];
    }
  }

  function Restricted<V>(m: map<nat, V>, tags: seq<nat>): map<nat, V> {
    map u | u in tags && u in m :: m[u]
  }

  lemma RestrictedMore<V>(m: map<nat, V>, front: seq<nat>, last: nat)
    requires last in m
    ensures Restricted(m, front + [last]) == Restricted(m, front)[last := m[last]]
  {
  }

  lemma RestrictedAll<V>(m: map<nat, V>, tags: seq<nat>)
    requires forall t :: t in tags <==> t in m
    ensures Restricted(m, tags) == m
  {
  }

  function TablesOf(d: Descriptor, tags: seq<nat>, maxSection: nat): Tables {
    Tables(tags, Restricted(d.names, tags), Restricted(d.sectionOf, tags), Restricted(d.types, tags), maxSection)
  }

  lemma FilledMore(d: Descriptor, front: seq<nat>, last: nat)
    requires Knows(d, front + [last]) && Knows(d, front)
    ensures last in d.names && last in d.sectionOf && last in d.types
    ensures Filled(EntriesOf(d, front + [last])) == Enter(Filled(EntriesOf(d, front)), EntryOf(d, last))
  {
    assert (front + [last])[|front|] == last;
    var es := EntriesOf(d, front + [last]);
    assert es[..|es| - 1] == EntriesOf(d, front);
  }

  lemma TablesMore(d: Descriptor, front: seq<nat>, last: nat, max: nat)
    requires last in d.names && last in d.sectionOf && last in d.types
    ensures Enter(TablesOf(d, front, max), EntryOf(d, last))
      == TablesOf(d, front + [last], if max >= d.sectionOf[last] then max else d.sectionOf[last])
  {
    RestrictedMore(d.names, front, last);
    RestrictedMore(d.sectionOf, front, last);
    RestrictedMore(d.types, front, last);
  }

  /** The tables that reading back fills. */
  lemma {:induction false} TablesOfEntries(d: Descriptor, tags: seq<nat>) returns (max: nat)
    requires WellFormed(d) && Knows(d, tags)
    ensures Filled(EntriesOf(d, tags)) == TablesOf(d, tags, max)
    ensures max == 0 || max < |d.sections|
  {
    max := 0;
    if tags != [] {
      var front, last := tags[..|tags| - 1], tags[|tags| - 1];
      assert tags == front + [last] && Knows(d, front);
      max := TablesOfEntries(d, front);
      FilledMore(d, front, last);
      TablesMore(d, front, last, max);
      max := if max >= d.sectionOf[last] then max else d.sectionOf[last];
    }
  }

  lemma WithCount(p: Parcel, pos: nat, n: nat, t: Tables, count: nat)
    requires Int32Cells(p) && n != 0 && pos < |p| && p[pos] == Int(count)
    requires forall u :: u in t.tags ==> u in t.names && u in t.sectionOf
    requires t.maxSection < count <= INT32_MAX
    ensures var listed := ReadNames(p, pos + 1, count);
      WithSections(p, pos, n, t) == if listed.EmptyName? then Err(NOT_ENOUGH_DATA) else Built(t, InsertAll(listed.names))
  {
    assert IntAt(p, pos) && ToUint32(p[pos].v) == count;
    assert (t.maxSection + 1) % UINT32 == t.maxSection + 1;
  }

  /** The section names written behind the tags are read back, unless one is empty. */
  lemma SectionsBack(p: Parcel, pos: nat, n: nat, t: Tables, l: seq<string>)
    requires Int32Cells(p) && n != 0 && pos < |p| && p[pos] == Int(|l|)
    requires forall u :: u in t.tags ==> u in t.names && u in t.sectionOf
    requires At(p, pos + 1, EncodedStrings(l)) && Ascends(l) && t.maxSection < |l| <= INT32_MAX
    ensures WithSections(p, pos, n, t) == if "" in l then Err(NOT_ENOUGH_DATA) else Built(t, l)
  {
    ReadEncodedStrings(l, p, pos + 1);
    InsertAllAscending(l);
    WithCount(p, pos, n, t, |l|);
  }

  lemma EncodedIsInt32(d: Descriptor)
    requires WellFormed(d) && Knows(d, Ascending(d.names.Keys))
    ensures Int32Cells(Encoded(d))
  {
    var tags := Ascending(d.names.Keys);
    TagsAreInt32(d, tags);
    StringsAreInt32(d.sections);
    assert Int32Cells(EncodedSections(d.sections));
    assert Int32Cells(EncodedTags(d, tags) + EncodedSections(d.sections));
  }

  lemma {:induction false} TagsAreInt32(d: Descriptor, tags: seq<nat>)
    requires WellFormed(d) && Knows(d, tags)
    ensures Int32Cells(EncodedTags(d, tags))
  {
    if tags != [] {
      TagsAreInt32(d, tags[1..]);
      assert Int32Cells(EncodedTag(d, tags[0]));
    }
  }

  lemma {:induction false} StringsAreInt32(l: seq<string>)
    ensures Int32Cells(EncodedStrings(l))
  {
    if l != [] {
      StringsAreInt32(l[1..]);
    }
  }

  /** The tags are distinct, and no name and no section name is empty. */
  ghost predicate Portable(d: Descriptor) {
    d.tagCount == |d.names| && (forall t :: t in d.names ==> d.names[t] != "") && "" !in d.sections
  }

  /** The reverse index as a reader enters it, in ascending order of the tags. */
  ghost function Reindexed(d: Descriptor): Descriptor
    requires WellFormed(d)
  {
    KnowsOwn(d);
    d.(reverse := ReverseOf(Ascending(d.names.Keys), d.names, SectionNames(d)))
  }

  lemma BuiltBack(d: Descriptor, tags: seq<nat>, max: nat)
    requires WellFormed(d) && (forall t :: t in tags <==> t in d.names) && |tags| == d.tagCount
    ensures Built(TablesOf(d, tags, max), d.sections) == Ok(d.(reverse := ReverseOf(tags, d.names, SectionNames(d))))
  {
    RestrictedAll(d.names, tags);
    RestrictedAll(d.sectionOf, tags);
    RestrictedAll(d.types, tags);
    var b := Descriptor(|tags|, d.names, d.sectionOf, d.types, d.sections, map[]);
    assert SectionNames(b) == SectionNames(d);
  }

  /** Where the parts of an encoded descriptor stand. */
  lemma Layout(p: Parcel, count: Cell, tags: Parcel, sectionCount: Cell, strings: Parcel, pos: nat)
    requires p == [count] + (tags + ([sectionCount] + strings)) && pos == 1 + |tags|
    ensures p[0] == count && At(p, 1, tags)
    ensures p[pos] == sectionCount && At(p, pos + 1, strings)
  {
    var behind := [sectionCount] + strings;
    assert At(p, 0, p);
    AtCons(p, 0, count, tags + behind);
    AtParts(p, 1, tags, behind);
    AtCons(p, pos, sectionCount, strings);
  }

  /** A section count does not read as one more tag. */
  lemma NoFurtherTag(p: Parcel, pos: nat, n: nat)
    requires Int32Cells(p) && pos < |p| && p[pos] == Int(n) && n <= INT32_MAX
    ensures ReadEntry(p, pos) == BadEntry(BAD_VALUE)
  {
  }

  lemma PortableBack(d: Descriptor, tags: seq<nat>, p: Parcel, pos: nat)
    requires WellFormed(d) && Knows(d, tags) && (forall t :: t in tags <==> t in d.names) && Int32Cells(p)
    requires d.tagCount == |tags| && |tags| != 0 && d.sections != []
    requires pos < |p| && p[pos] == Int(|d.sections|) && At(p, pos + 1, EncodedStrings(d.sections))
    ensures WithSections(p, pos, d.tagCount, Filled(EntriesOf(d, tags))) ==
      if "" in d.sections then Err(NOT_ENOUGH_DATA)
      else Ok(d.(reverse := ReverseOf(tags, d.names, SectionNames(d))))
  {
    var max := TablesOfEntries(d, tags);
    SectionsBack(p, pos, d.tagCount, Filled(EntriesOf(d, tags)), d.sections);
    BuiltBack(d, tags, max);
  }

  lemma RoundTripOf(d: Descriptor, tags: seq<nat>, p: Parcel)
    requires WellFormed(d) && tags == Ascending(d.names.Keys) && Knows(d, tags) && Int32Cells(p) && p == Encoded(d)
    requires d.sections != [] && |tags| != 0
    ensures Decoded(p).Ok? <==> Portable(d)
    ensures Portable(d) ==> Decoded(p) == Ok(d.(reverse := ReverseOf(tags, d.names, SectionNames(d))))
  {
    var pos := 1 + |EncodedTags(d, tags)|;
    Layout(p, Int(d.tagCount), EncodedTags(d, tags), Int(|d.sections|), EncodedStrings(d.sections), pos);
    NoFurtherTag(p, pos, |d.sections|);
    ReadEncodedTags(d, tags, p, 1, d.tagCount, pos);
    NamedAll(d, tags);
    if d.tagCount == |tags| && Named(d, tags) {
      PortableBack(d, tags, p, pos);
    } else {
      assert ReadEntries(p, 1, d.tagCount).BadEntries?;
    }
  }

  lemma NamedAll(d: Descriptor, tags: seq<nat>)
    requires Knows(d, tags) && forall t :: t in tags <==> t in d.names
    ensures Named(d, tags) <==> forall t :: t in d.names ==> d.names[t] != ""
  {
    if forall t :: t in d.names ==> d.names[t] != "" {
      forall i | 0 <= i < |tags| ensures d.names[tags[i]] != "" {
        assert tags[i] in tags;
      }
    }
    if Named(d, tags) {
      forall t | t in d.names ensures d.names[t] != "" {
        var i :| 0 <= i < |tags| && tags[i] == t;
      }
    }
  }

  /** A parcel can be read back exactly when the descriptor is portable, and then all its tags, names,
      types and sections come back; the reverse index is the one entered in tag order. */
  lemma ParcelRoundTrip(d: Descriptor)
    requires WellFormed(d)
    ensures Int32Cells(Encoded(d))
    ensures Decoded(Encoded(d)).Ok? <==> Portable(d)
    ensures Portable(d) ==> Decoded(Encoded(d)) == Ok(Reindexed(d))
  {
    KnowsOwn(d);
    EncodedIsInt32(d);
    var tags := Ascending(d.names.Keys);
    if d.names == map[] {
      assert tags == [];
      assert d.sectionOf == map[] && d.types == map[];
    } else {
      var t :| t in d.names;
      assert d.sectionOf[t] < |d.sections|;
      RoundTripOf(d, tags, Encoded(d));
    }
  }

  /** The tag is found under the name and section its getters give. */
  ghost predicate LooksUp(d: Descriptor, t: nat) {
    && GetTagName(d, t).Some? && GetSectionName(d, t).Some?
    && Lookup(d.reverse, GetTagName(d, t).value, GetSectionName(d, t).value) == Some(t)
  }

  lemma PairsLookUp(ops: Ops, d: Descriptor, t: nat)
    requires WellFormed(d) && Describes(d, ops) && UniquePairs(d.names, SectionNames(d)) && t in d.names
    ensures LooksUp(d, t)
  {
    LookupInvertsIff(ops.tags, d.names, SectionNames(d));
    assert t in ops.tags && t in SectionNames(d);
  }

  lemma SameIndex(ops: Ops, d: Descriptor)
    requires WellFormed(d) && Describes(d, ops) && UniquePairs(d.names, SectionNames(d))
    ensures Reindexed(d) == d
  {
    KnowsOwn(d);
    ReverseOrderFree(Ascending(d.names.Keys), ops.tags, d.names, SectionNames(d));
  }

  /** A descriptor made from vendor operations with unique (section, name) pairs comes back unchanged,
      and every tag is found under its own name and section before and after. */
  lemma UniquePairsSurvive(ops: Ops, d: Descriptor)
    requires GoodOps(ops) && WellFormed(d) && Describes(d, ops) && Portable(d)
    requires UniquePairs(d.names, SectionNames(d))
    ensures Int32Cells(Encoded(d)) && Decoded(Encoded(d)) == Ok(d)
    ensures forall t :: t in d.names ==> LooksUp(d, t)
  {
    ParcelRoundTrip(d);
    SameIndex(ops, d);
    forall t | t in d.names ensures LooksUp(d, t) {
      PairsLookUp(ops, d, t);
    }
  }
}
