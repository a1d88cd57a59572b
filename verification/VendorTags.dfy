/**
 VendorTagDescriptor (libmocha/camera/VendorTagDescriptor.cpp): the table of vendor-defined camera
 metadata tags, its reverse index and its parcel form. A parcel is a sequence of 32-bit and string cells.
 */
module VendorTags {
  import opened Basics
  import opened CText

  const OK := 0
  const BAD_VALUE := -22
  const NOT_ENOUGH_DATA := -61
  /** Where the program would index the section list beyond its end. */
  const OUT_OF_BOUNDS := -75

  const BOUNDARY := 0x8000_0000
  const NUM_TYPES := 6
  const INT32_MAX := 0x7fff_ffff
  const UINT32 := 0x1_0000_0000

  type Reverse = map<string, map<string, nat>>

  datatype Descriptor = Descriptor(
    tagCount: nat, names: map<nat, string>, sectionOf: map<nat, nat>, types: map<nat, int>,
    sections: seq<string>, reverse: Reverse)

  datatype Result = Ok(value: Descriptor) | Err(error: int)

  // ----- The section list, a sorted vector without repetitions -----

  ghost predicate Ascends(l: seq<string>) {
    forall i, j :: 0 <= i < j < |l| ==> Less(l[i], l[j])
  }

  function Insert(l: seq<string>, x: string): seq<string> {
    if l == [] then [x] else if l[0] == x then l else if Less(x, l[0]) then [x] + l else [l[0]] + Insert(l[1..], x)
  }

  lemma AscendsCons(x: string, l: seq<string>)
    requires Ascends(l) && forall i :: 0 <= i < |l| ==> Less(x, l[i])
    ensures Ascends([x] + l)
  {
  }

  lemma {:induction false} InsertMembers(l: seq<string>, x: string)
    ensures forall y :: y in Insert(l, x) <==> y == x || y in l
  {
    if l != [] && l[0] != x && !Less(x, l[0]) {
      InsertMembers(l[1..], x);
      assert forall y :: y in l <==> y == l[0] || y in l[1..];
    }
  }

  lemma {:induction false} InsertAscends(l: seq<string>, x: string)
    requires Ascends(l)
    ensures Ascends(Insert(l, x)) && |Insert(l, x)| <= |l| + 1
  {
    if l == [] || l[0] == x {
    } else if Less(x, l[0]) {
      forall i | 0 <= i < |l| ensures Less(x, l[i]) {
        if i > 0 {
          LessTransitive(x, l[0], l[i]);
        }
      }
      AscendsCons(x, l);
    } else {
      LessTotal(x, l[0]);
      InsertAscends(l[1..], x);
      InsertMembers(l[1..], x);
      var rest := Insert(l[1..], x);
      forall i | 0 <= i < |rest| ensures Less(l[0], rest[i]) {
        assert rest[i] in rest;
      }
      AscendsCons(l[0], rest);
    }
  }

  lemma {:induction false} InsertLast(l: seq<string>, x: string)
    requires forall i :: 0 <= i < |l| ==> Less(l[i], x)
    ensures Insert(l, x) == l + [x]
  {
    if l != [] {
      LessTotal(l[0], x);
      InsertLast(l[1..], x);
    }
  }

  function InsertAll(l: seq<string>): seq<string> {
    if l == [] then [] else Insert(InsertAll(l[..|l| - 1]), l[|l| - 1])
  }

  lemma {:induction false} InsertAllAscending(l: seq<string>)
    requires Ascends(l)
    ensures InsertAll(l) == l
  {
    if l != [] {
      InsertAllAscending(l[..|l| - 1]);
      InsertLast(l[..|l| - 1], l[|l| - 1]);
    }
  }

  function IndexIn(l: seq<string>, x: string): (i: nat)
    ensures i <= |l| && (x in l ==> i < |l| && l[i] == x)
  {
    if l == [] || l[0] == x then 0 else 1 + IndexIn(l[1..], x)
  }

  // ----- The reverse index -----

  function AddReverse(rev: Reverse, section: string, name: string, tag: nat): Reverse {
    var mapper := if section in rev then rev[section] else map[];
    rev[section := mapper[name := tag]]
  }

  function ReverseOf(tags: seq<nat>, names: map<nat, string>, secs: map<nat, string>): Reverse
    requires forall t :: t in tags ==> t in names && t in secs
  {
    if tags == [] then map[]
    else
      var t := tags[|tags| - 1];
      AddReverse(ReverseOf(tags[..|tags| - 1], names, secs), secs[t], names[t], t)
  }

  /** lookupTag. */
  function Lookup(rev: Reverse, name: string, section: string): Option<nat> {
    if section in rev && name in rev[section] then Some(rev[section][name]) else None
  }

  /** The last tag of the list with this name and section. */
  function LastTag(tags: seq<nat>, names: map<nat, string>, secs: map<nat, string>, name: string, section: string): (r: Option<nat>)
    requires forall t :: t in tags ==> t in names && t in secs
    ensures r.Some? ==> r.value in tags && names[r.value] == name && secs[r.value] == section
    ensures r.None? ==> forall t :: t in tags ==> names[t] != name || secs[t] != section
  {
    if tags == [] then None
    else
      var t := tags[|tags| - 1];
      if names[t] == name && secs[t] == section then Some(t)
      else LastTag(tags[..|tags| - 1], names, secs, name, section)
  }

  lemma {:induction false} LookupFindsLast(tags: seq<nat>, names: map<nat, string>, secs: map<nat, string>, name: string, section: string)
    requires forall t :: t in tags ==> t in names && t in secs
    ensures Lookup(ReverseOf(tags, names, secs), name, section) == LastTag(tags, names, secs, name, section)
  {
    if tags != [] {
      LookupFindsLast(tags[..|tags| - 1], names, secs, name, section);
    }
  }

  /** No two tags of the set share name and section. */
  ghost predicate UniquePairs(names: map<nat, string>, secs: map<nat, string>) {
    forall t, u :: t in names && t in secs && u in names && u in secs && names[t] == names[u] && secs[t] == secs[u] ==> t == u
  }

  /** Every tag is found again under its own name and section. */
  ghost predicate FindsAll(tags: seq<nat>, names: map<nat, string>, secs: map<nat, string>, rev: Reverse)
    requires forall t :: t in tags ==> t in names && t in secs
  {
    forall t :: t in tags ==> Lookup(rev, names[t], secs[t]) == Some(t)
  }

  /** That is so exactly when the pairs are unique. */
  lemma LookupInvertsIff(tags: seq<nat>, names: map<nat, string>, secs: map<nat, string>)
    requires (forall t :: t in tags <==> t in names) && names.Keys == secs.Keys
    ensures FindsAll(tags, names, secs, ReverseOf(tags, names, secs)) <==> UniquePairs(names, secs)
  {
    var rev := ReverseOf(tags, names, secs);
    if UniquePairs(names, secs) {
      forall t | t in tags ensures Lookup(rev, names[t], secs[t]) == Some(t) {
        LookupFindsLast(tags, names, secs, names[t], secs[t]);
      }
    }
    if FindsAll(tags, names, secs, rev) {
      forall t, u | t in names && u in names && names[t] == names[u] && secs[t] == secs[u] ensures t == u {
        assert Lookup(rev, names[t], secs[t]) == Some(t) && Lookup(rev, names[u], secs[u]) == Some(u);
      }
    }
  }

  ghost predicate NoEmptyMapper(rev: Reverse) {
    forall s :: s in rev ==> rev[s].Keys != {}
  }

  lemma {:induction false} ReverseHasNoEmptyMapper(tags: seq<nat>, names: map<nat, string>, secs: map<nat, string>)
    requires forall t :: t in tags ==> t in names && t in secs
    ensures NoEmptyMapper(ReverseOf(tags, names, secs))
  {
    if tags != [] {
      var t := tags[|tags| - 1];
      ReverseHasNoEmptyMapper(tags[..|tags| - 1], names, secs);
      assert names[t] in ReverseOf(tags, names, secs)[secs[t]];
    }
  }

  lemma SameLookups(a: Reverse, b: Reverse)
    requires NoEmptyMapper(a) && NoEmptyMapper(b)
    requires forall name, section :: Lookup(a, name, section) == Lookup(b, name, section)
    ensures a == b
  {
    forall s | s in a ensures s in b && a[s] == b[s] {
      SameMapper(a, b, s);
    }
    forall s | s in b ensures s in a {
      SameMapper(b, a, s);
    }
  }

  lemma SameMapper(a: Reverse, b: Reverse, s: string)
    requires NoEmptyMapper(a) && NoEmptyMapper(b) && s in a
    requires forall name, section :: Lookup(a, name, section) == Lookup(b, name, section)
    ensures s in b && a[s] == b[s]
  {
    var n :| n in a[s];
    assert Lookup(a, n, s) == Lookup(b, n, s);
    forall name ensures name in a[s] <==> name in b[s] {
      assert Lookup(a, name, s) == Lookup(b, name, s);
    }
    forall name | name in a[s] ensures a[s][name] == b[s][name] {
      assert Lookup(a, name, s) == Lookup(b, name, s);
    }
  }

  /** With unique pairs the index does not depend on the order in which the tags were entered. */
  lemma ReverseOrderFree(ts: seq<nat>, us: seq<nat>, names: map<nat, string>, secs: map<nat, string>)
    requires (forall t :: t in ts ==> t in names && t in secs) && (forall t :: t in ts <==> t in us)
    requires UniquePairs(names, secs)
    ensures ReverseOf(ts, names, secs) == ReverseOf(us, names, secs)
  {
    var a, b := ReverseOf(ts, names, secs), ReverseOf(us, names, secs);
    forall name, section ensures Lookup(a, name, section) == Lookup(b, name, section) {
      LookupFindsLast(ts, names, secs, name, section);
      LookupFindsLast(us, names, secs, name, section);
    }
    ReverseHasNoEmptyMapper(ts, names, secs);
    ReverseHasNoEmptyMapper(us, names, secs);
    SameLookups(a, b);
  }

  // ----- Reading a descriptor -----

  function SectionNames(d: Descriptor): map<nat, string> {
    map t | t in d.sectionOf && d.sectionOf[t] < |d.sections| :: d.sections[d.sectionOf[t]]
  }

  const TAG_TYPE_ERR := -1

  /** The getters; None and TAG_TYPE_ERR are their answers for an unknown tag. */
  function GetTagName(d: Descriptor, tag: nat): Option<string> {
    if tag in d.names then Some(d.names[tag]) else None
  }

  function GetSectionName(d: Descriptor, tag: nat): Option<string> {
    if tag in d.sectionOf && d.sectionOf[tag] < |d.sections| then Some(d.sections[d.sectionOf[tag]]) else None
  }

  function GetTagType(d: Descriptor, tag: nat): int {
    if tag in d.names && tag in d.types then d.types[tag] else TAG_TYPE_ERR
  }

  /** What every descriptor satisfies that createDescriptorFromOps can make. */
  ghost predicate WellFormed(d: Descriptor) {
    && d.names.Keys == d.sectionOf.Keys == d.types.Keys
    && |d.names| <= d.tagCount <= INT32_MAX
    && (forall t :: t in d.names ==> BOUNDARY <= t < UINT32)
    && (forall t :: t in d.types ==> 0 <= d.types[t] < NUM_TYPES)
    && (forall t :: t in d.sectionOf ==> d.sectionOf[t] < |d.sections|)
    && Ascends(d.sections) && |d.sections| <= INT32_MAX
    && (d.names == map[] ==> d.tagCount == 0 && d.sections == [])
  }

  // ----- Creation from the vendor's operations -----

  /** The vendor's tag list and its answers for each tag; None stands for a null pointer. */
  datatype Ops = Ops(count: int, tags: seq<nat>, name: nat -> Option<string>, section: nat -> Option<string>, tagType: nat -> int)

  ghost predicate GoodTag(ops: Ops, t: nat) {
    t >= BOUNDARY && ops.name(t).Some? && ops.section(t).Some? && 0 <= ops.tagType(t) < NUM_TYPES
  }

  ghost predicate GoodOps(ops: Ops) {
    ops.count >= 0 && forall t :: t in ops.tags ==> GoodTag(ops, t)
  }

  function NameOf(ops: Ops, t: nat): string { if ops.name(t).Some? then ops.name(t).value else "" }

  function SectionOf(ops: Ops, t: nat): string { if ops.section(t).Some? then ops.section(t).value else "" }

  function OpsNames(ops: Ops, tags: seq<nat>): map<nat, string> { map t | t in tags :: NameOf(ops, t) }

  function OpsSections(ops: Ops, tags: seq<nat>): map<nat, string> { map t | t in tags :: SectionOf(ops, t) }

  function OpsTypes(ops: Ops, tags: seq<nat>): map<nat, int> { map t | t in tags :: ops.tagType(t) }

  /** The descriptor answers for every tag what the vendor answered, and for no other tag. */
  ghost predicate Describes(d: Descriptor, ops: Ops) {
    && d.tagCount == |ops.tags|
    && d.names == OpsNames(ops, ops.tags)
    && d.types == OpsTypes(ops, ops.tags)
    && SectionNames(d) == OpsSections(ops, ops.tags)
    && d.reverse == ReverseOf(ops.tags, d.names, SectionNames(d))
  }

  /** Through the getters: the vendor's own answers for its tags, the error answers for all others. */
  lemma GettersAnswer(ops: Ops, d: Descriptor, t: nat)
    requires GoodOps(ops) && Describes(d, ops)
    ensures t in ops.tags ==> GetTagName(d, t) == ops.name(t) && GetSectionName(d, t) == ops.section(t) && GetTagType(d, t) == ops.tagType(t)
    ensures t !in ops.tags ==> GetTagName(d, t) == None && GetSectionName(d, t) == None && GetTagType(d, t) == TAG_TYPE_ERR
  {
    if t in ops.tags {
      assert GoodTag(ops, t);
      assert t in OpsSections(ops, ops.tags) && SectionNames(d)[t] == SectionOf(ops, t);
    } else {
      assert t !in SectionNames(d);
    }
  }

  lemma OneMore(tags: seq<nat>, i: nat)
    requires i < |tags|
    ensures tags[..i + 1] == tags[..i] + [tags[i]]
    ensures forall t :: t in tags[..i + 1] <==> t in tags[..i] || t == tags[i]
  {
  }

  /** The maps from tag to name, section and type, and the section list, of a list of good tags. */
  ghost predicate Collected(ops: Ops, tags: seq<nat>, names: map<nat, string>, secs: map<nat, string>, types: map<nat, int>, sections: seq<string>) {
    && (forall t :: t in tags ==> GoodTag(ops, t) && SectionOf(ops, t) in sections)
    && names == OpsNames(ops, tags)
    && secs == OpsSections(ops, tags)
    && types == OpsTypes(ops, tags)
    && Ascends(sections) && |sections| <= |tags|
  }

  lemma MapsOneMore(ops: Ops, tags: seq<nat>, i: nat)
    requires i < |tags|
    ensures var t := tags[i];
      && OpsNames(ops, tags[..i + 1]) == OpsNames(ops, tags[..i])[t := NameOf(ops, t)]
      && OpsSections(ops, tags[..i + 1]) == OpsSections(ops, tags[..i])[t := SectionOf(ops, t)]
      && OpsTypes(ops, tags[..i + 1]) == OpsTypes(ops, tags[..i])[t := ops.tagType(t)]
  {
    OneMore(tags, i);
  }

  lemma CollectOne(ops: Ops, tags: seq<nat>, i: nat, names: map<nat, string>, secs: map<nat, string>, types: map<nat, int>, sections: seq<string>)
    requires i < |tags| && Collected(ops, tags[..i], names, secs, types, sections) && GoodTag(ops, tags[i])
    ensures var t := tags[i];
      Collected(ops, tags[..i + 1], names[t := NameOf(ops, t)], secs[t := SectionOf(ops, t)],
        types[t := ops.tagType(t)], Insert(sections, SectionOf(ops, t)))
  {
    OneMore(tags, i);
    MapsOneMore(ops, tags, i);
    InsertAscends(sections, SectionOf(ops, tags[i]));
    InsertMembers(sections, SectionOf(ops, tags[i]));
  }

  /** The first loop: checks every tag and fills the maps. */
  method CollectTags(ops: Ops)
    returns (res: int, names: map<nat, string>, secs: map<nat, string>, types: map<nat, int>, sections: seq<string>)
    requires ops.count == |ops.tags|
    ensures res == if GoodOps(ops) then OK else BAD_VALUE
    ensures res == OK ==> Collected(ops, ops.tags, names, secs, types, sections)
  {
    res, names, secs, types, sections := OK, map[], map[], map[], [];
    for i := 0 to ops.count
      invariant Collected(ops, ops.tags[..i], names, secs, types, sections)
    {
      var tag := ops.tags[i];
      assert tag in ops.tags;
      if tag < BOUNDARY || ops.name(tag).None? || ops.section(tag).None?
        || ops.tagType(tag) < 0 || ops.tagType(tag) >= NUM_TYPES
      {
        assert !GoodTag(ops, tag);
        res := BAD_VALUE;
        return;
      }
      CollectOne(ops, ops.tags, i, names, secs, types, sections);
      var sectionString := ops.section(tag).value;
      names := names[tag := ops.name(tag).value];
      sections := Insert(sections, sectionString);
      secs := secs[tag := sectionString];
      types := types[tag := ops.tagType(tag)];
    }
    assert ops.tags[..ops.count] == ops.tags;
  }

  function SectionIndices(tags: seq<nat>, secs: map<nat, string>, sections: seq<string>): map<nat, nat> {
    map t | t in tags && t in secs :: IndexIn(sections, secs[t])
  }

  lemma SectionIndicesMore(tags: seq<nat>, i: nat, secs: map<nat, string>, sections: seq<string>)
    requires i < |tags| && tags[i] in secs
    ensures SectionIndices(tags[..i + 1], secs, sections)
      == SectionIndices(tags[..i], secs, sections)[tags[i] := IndexIn(sections, secs[tags[i]])]
  {
    OneMore(tags, i);
  }

  /** The second loop: section indices and the reverse index. */
  method IndexTags(tags: seq<nat>, names: map<nat, string>, secs: map<nat, string>, sections: seq<string>)
    returns (sectionOf: map<nat, nat>, reverse: Reverse)
    requires forall t :: t in tags ==> t in names && t in secs && secs[t] in sections
    ensures forall t :: t in sectionOf <==> t in tags
    ensures forall t :: t in tags ==> sectionOf[t] < |sections| && sections[sectionOf[t]] == secs[t]
    ensures reverse == ReverseOf(tags, names, secs)
  {
    sectionOf, reverse := map[], map[];
    for i := 0 to |tags|
      invariant sectionOf == SectionIndices(tags[..i], secs, sections)
      invariant reverse == ReverseOf(tags[..i], names, secs)
    {
      var tag := tags[i];
      SectionIndicesMore(tags, i, secs, sections);
      ReverseOneMore(tags, i, names, secs);
      var sectionString := secs[tag];
      sectionOf := sectionOf[tag := IndexIn(sections, sectionString)];
      if sectionString !in reverse {
        reverse := reverse[sectionString := map[]];
      }
      reverse := reverse[sectionString := reverse[sectionString][names[tag] := tag]];
    }
    assert tags[..|tags|] == tags;
  }

  lemma ReverseOneMore(tags: seq<nat>, i: nat, names: map<nat, string>, secs: map<nat, string>)
    requires i < |tags| && forall t :: t in tags ==> t in names && t in secs
    ensures ReverseOf(tags[..i + 1], names, secs)
      == AddReverse(ReverseOf(tags[..i], names, secs), secs[tags[i]], names[tags[i]], tags[i])
  {
    assert tags[..i + 1][..i] == tags[..i];
  }

  function TagSet(tags: seq<nat>): set<nat> { set t | t in tags }

  lemma {:induction false} TagSetSize(tags: seq<nat>)
    ensures |TagSet(tags)| <= |tags|
  {
    if tags != [] {
      TagSetSize(tags[1..]);
      assert TagSet(tags) == {tags[0]} + TagSet(tags[1..]);
    }
  }

  lemma NameCount(names: map<nat, string>, tags: seq<nat>)
    requires forall t :: t in names <==> t in tags
    ensures |names| <= |tags| && (names == map[] ==> tags == [])
  {
    TagSetSize(tags);
    assert names.Keys == TagSet(tags);
    assert |names| == |names.Keys|;
    if tags != [] {
      assert tags[0] in names;
    }
  }

  lemma AssembledWellFormed(ops: Ops, d: Descriptor)
    requires forall t :: t in ops.tags ==> GoodTag(ops, t) && t < UINT32
    requires d.tagCount == |ops.tags| <= INT32_MAX && Ascends(d.sections) && |d.sections| <= |ops.tags|
    requires d.names == OpsNames(ops, ops.tags) && d.types == OpsTypes(ops, ops.tags)
    requires forall t :: t in d.sectionOf <==> t in ops.tags
    requires forall t :: t in d.sectionOf ==> d.sectionOf[t] < |d.sections|
    ensures WellFormed(d)
  {
    NameCount(d.names, ops.tags);
    assert d.names.Keys == d.sectionOf.Keys == d.types.Keys;
    forall t | t in d.types ensures 0 <= d.types[t] < NUM_TYPES {
      assert GoodTag(ops, t);
    }
  }

  lemma AssembledDescribes(ops: Ops, secs: map<nat, string>, d: Descriptor)
    requires d.tagCount == |ops.tags| && d.names == OpsNames(ops, ops.tags) && d.types == OpsTypes(ops, ops.tags)
    requires secs == OpsSections(ops, ops.tags)
    requires forall t :: t in d.sectionOf <==> t in ops.tags
    requires forall t :: t in ops.tags ==> d.sectionOf[t] < |d.sections| && d.sections[d.sectionOf[t]] == secs[t]
    requires d.reverse == ReverseOf(ops.tags, d.names, secs)
    ensures Describes(d, ops)
  {
    assert SectionNames(d) == secs;
  }

  method CreateDescriptorFromOps(ops: Ops) returns (r: Result)
    requires ops.count >= 0 ==> ops.count == |ops.tags| <= INT32_MAX && forall t :: t in ops.tags ==> t < UINT32
    ensures r.Ok? <==> GoodOps(ops)
    ensures r.Ok? ==> WellFormed(r.value) && Describes(r.value, ops)
    ensures r.Err? ==> r.error == BAD_VALUE
  {
    if ops.count < 0 {
      return Err(BAD_VALUE);
    }
    var res, names, secs, types, sections := CollectTags(ops);
    if res != OK {
      return Err(res);
    }
    var sectionOf, reverse := IndexTags(ops.tags, names, secs, sections);
    var d := Descriptor(ops.count, names, sectionOf, types, sections, reverse);
    AssembledWellFormed(ops, d);
    AssembledDescribes(ops, secs, d);
    r := Ok(d);
  }
}
