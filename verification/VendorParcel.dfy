/**
 The parcel form of a vendor tag descriptor (libmocha/camera/VendorTagDescriptor.cpp): writeToParcel,
 createFromParcel and their round trip.
 */
module VendorParcel {
  import opened VendorTags

  datatype Cell = Int(v: int) | Str(s: string)

  type Parcel = seq<Cell>

  function ToInt32(u: nat): int { if u < BOUNDARY then u else u - UINT32 }

  function ToUint32(i: int): int { if i < 0 then i + UINT32 else i }

  // ----- Writing -----

  ghost predicate IsLeast(t: nat, s: set<nat>) {
    t in s && forall u :: u in s ==> t <= u
  }

  lemma {:induction false} LeastExists(s: set<nat>)
    requires s != {}
    ensures exists t :: IsLeast(t, s)
  {
    var t :| t in s;
    var rest := s - {t};
    if rest == {} {
      assert s == {t} && IsLeast(t, s);
    } else {
      LeastExists(rest);
      var v :| IsLeast(v, rest);
      LeastOfTwo(s, t, v);
    }
  }

  lemma LeastOfTwo(s: set<nat>, t: nat, v: nat)
    requires t in s && IsLeast(v, s - {t})
    ensures IsLeast(if t < v then t else v, s)
  {
    forall u | u in s ensures (if t < v then t else v) <= u {
      assert u == t || u in s - {t};
    }
  }

  /** The keys of a KeyedVector in its order. */
  function Ascending(s: set<nat>): (r: seq<nat>)
    ensures |r| == |s| && forall t :: t in r <==> t in s
  {
    if s == {} then []
    else
      LeastExists(s);
      var t :| t in s && forall u :: u in s ==> t <= u;
      [t] + Ascending(s - {t})
  }

  function EncodedTag(d: Descriptor, t: nat): (cells: Parcel)
    requires t in d.names && t in d.sectionOf && t in d.types
    ensures |cells| == 4
  {
    [Int(ToInt32(t)), Int(d.types[t]), Str(d.names[t]), Int(ToInt32(d.sectionOf[t]))]
  }

  ghost predicate Knows(d: Descriptor, tags: seq<nat>) {
    forall i :: 0 <= i < |tags| ==> tags[i] in d.names && tags[i] in d.sectionOf && tags[i] in d.types
  }

  function EncodedTags(d: Descriptor, tags: seq<nat>): (cells: Parcel)
    requires Knows(d, tags)
    ensures |cells| == 4 * |tags|
  {
    if tags == [] then [] else EncodedTag(d, tags[0]) + EncodedTags(d, tags[1..])
  }

  function EncodedStrings(l: seq<string>): (cells: Parcel)
    ensures |cells| == |l|
  {
    if l == [] then [] else [Str(l[0])] + EncodedStrings(l[1..])
  }

  function EncodedSections(l: seq<string>): Parcel {
    if l == [] then [] else [Int(|l|)] + EncodedStrings(l)
  }

  function Encoded(d: Descriptor): Parcel
    requires d.names.Keys == d.sectionOf.Keys == d.types.Keys
  {
    KnowsOwn(d);
    [Int(d.tagCount)] + (EncodedTags(d, Ascending(d.names.Keys)) + EncodedSections(d.sections))
  }

  lemma EncodedTagsMore(d: Descriptor, tags: seq<nat>, t: nat)
    requires Knows(d, tags + [t])
    ensures Knows(d, tags) && t in d.names && t in d.sectionOf && t in d.types
    ensures EncodedTags(d, tags + [t]) == EncodedTags(d, tags) + EncodedTag(d, t)
  {
    assert (tags + [t])[|tags|] == t;
    assert forall i :: 0 <= i < |tags| ==> (tags + [t])[i] == tags[i];
    if tags == [] {
      assert [t][1..] == [] && tags + [t] == [t];
    } else {
      assert (tags + [t])[1..] == tags[1..] + [t];
      EncodedTagsMore(d, tags[1..], t);
    }
  }

  lemma EncodedStringsMore(l: seq<string>, x: string)
    ensures EncodedStrings(l + [x]) == EncodedStrings(l) + [Str(x)]
  {
    if l != [] {
      assert (l + [x])[1..] == l[1..] + [x];
      EncodedStringsMore(l[1..], x);
    }
  }

  method WriteTags(d: Descriptor, tags: seq<nat>) returns (p: Parcel)
    requires Knows(d, tags)
    ensures p == EncodedTags(d, tags)
  {
    p := [];
    for i := 0 to |tags|
      invariant Knows(d, tags[..i]) && p == EncodedTags(d, tags[..i])
    {
      var tag := tags[i];
      assert tags[..i + 1] == tags[..i] + [tag];
      EncodedTagsMore(d, tags[..i], tag);
      p := p + [Int(ToInt32(tag)), Int(d.types[tag]), Str(d.names[tag]), Int(ToInt32(d.sectionOf[tag]))];
    }
    assert tags[..|tags|] == tags;
  }

  method WriteSections(sections: seq<string>) returns (p: Parcel)
    ensures p == EncodedSections(sections)
  {
    p := [];
    if |sections| > 0 {
      p := p + [Int(|sections|)];
      for i := 0 to |sections|
        invariant p == [Int(|sections|)] + EncodedStrings(sections[..i])
      {
        assert sections[..i + 1] == sections[..i] + [sections[i]];
        EncodedStringsMore(sections[..i], sections[i]);
        p := p + [Str(sections[i])];
      }
      assert sections[..|sections|] == sections;
    }
  }

  method WriteToParcel(d: Descriptor) returns (p: Parcel)
    requires d.names.Keys == d.sectionOf.Keys == d.types.Keys
    ensures p == Encoded(d)
  {
    KnowsOwn(d);
    var tags := WriteTags(d, Ascending(d.names.Keys));
    var sections := WriteSections(d.sections);
    p := [Int(d.tagCount)] + (tags + sections);
  }

  lemma KnowsOwn(d: Descriptor)
    requires d.names.Keys == d.sectionOf.Keys == d.types.Keys
    ensures Knows(d, Ascending(d.names.Keys))
  {
    var tags := Ascending(d.names.Keys);
    forall i | 0 <= i < |tags| ensures tags[i] in d.names.Keys {
      assert tags[i] in tags;
    }
  }

  // ----- Reading -----

  predicate IntAt(p: Parcel, pos: nat) { pos < |p| && p[pos].Int? }

  /** readString8: the empty string when there is none. */
  function StringAt(p: Parcel, pos: nat): string {
    if pos < |p| && p[pos].Str? then p[pos].s else ""
  }

  datatype Entry = Entry(tag: nat, tagType: int, name: string, section: nat)

  datatype EntryRead = GoodEntry(entry: Entry) | BadEntry(error: int)

  ghost predicate Int32Cells(p: Parcel) {
    forall i :: 0 <= i < |p| && p[i].Int? ==> -BOUNDARY <= p[i].v < BOUNDARY
  }

  /** The four cells of a tag. */
  function ReadEntry(p: Parcel, pos: nat): EntryRead
    requires Int32Cells(p)
  {
    if !IntAt(p, pos) then BadEntry(NOT_ENOUGH_DATA)
    else if ToUint32(p[pos].v) < BOUNDARY then BadEntry(BAD_VALUE)
    else if !IntAt(p, pos + 1) then BadEntry(NOT_ENOUGH_DATA)
    else if p[pos + 1].v < 0 || p[pos + 1].v >= NUM_TYPES then BadEntry(BAD_VALUE)
    else if StringAt(p, pos + 2) == "" then BadEntry(NOT_ENOUGH_DATA)
    else if !IntAt(p, pos + 3) then BadEntry(NOT_ENOUGH_DATA)
    else GoodEntry(Entry(ToUint32(p[pos].v), p[pos + 1].v, StringAt(p, pos + 2), ToUint32(p[pos + 3].v)))
  }

  datatype EntriesRead = GoodEntries(entries: seq<Entry>, next: nat) | BadEntries(error: int)

  function ReadEntries(p: Parcel, pos: nat, n: nat): (r: EntriesRead)
    requires Int32Cells(p)
    ensures r.GoodEntries? ==> |r.entries| == n
    decreases n
  {
    if n == 0 then GoodEntries([], pos)
    else
      var e := ReadEntry(p, pos);
      if e.BadEntry? then BadEntries(e.error)
      else
        var more := ReadEntries(p, pos + 4, n - 1);
        if more.BadEntries? then more else GoodEntries([e.entry] + more.entries, more.next)
  }

  datatype NamesRead = GoodNames(names: seq<string>) | EmptyName

  function ReadNames(p: Parcel, pos: nat, n: nat): NamesRead
    decreases n
  {
    if n == 0 then GoodNames([])
    else if StringAt(p, pos) == "" then EmptyName
    else
      var more := ReadNames(p, pos + 1, n - 1);
      if more.EmptyName? then more else GoodNames([StringAt(p, pos)] + more.names)
  }

  /** The tag list and the maps that reading fills, and the greatest section index met. */
  datatype Tables = Tables(
    tags: seq<nat>, names: map<nat, string>, sectionOf: map<nat, nat>, types: map<nat, int>, maxSection: nat)

  function Enter(t: Tables, e: Entry): Tables {
    Tables(t.tags + [e.tag], t.names[e.tag := e.name], t.sectionOf[e.tag := e.section], t.types[e.tag := e.tagType],
      if t.maxSection >= e.section then t.maxSection else e.section)
  }

  /** The tables the entries leave behind; a repeated tag keeps its last entry. */
  function Filled(es: seq<Entry>): (t: Tables)
    ensures |t.tags| == |es| && forall u :: u in t.tags ==> u in t.names && u in t.sectionOf
  {
    if es == [] then Tables([], map[], map[], map[], 0) else Enter(Filled(es[..|es| - 1]), es[|es| - 1])
  }

  predicate InBounds(t: Tables, sections: seq<string>)
    requires forall u :: u in t.tags ==> u in t.sectionOf
  {
    forall u :: u in t.tags ==> t.sectionOf[u] < |sections|
  }

  /** The descriptor of the tables and the section list that were read. */
  function Built(t: Tables, sections: seq<string>): Result
    requires forall u :: u in t.tags ==> u in t.names && u in t.sectionOf
  {
    var d := Descriptor(|t.tags|, t.names, t.sectionOf, t.types, sections, map[]);
    if InBounds(t, sections) then Ok(d.(reverse := ReverseOf(t.tags, d.names, SectionNames(d))))
    else Err(OUT_OF_BOUNDS)
  }

  /** The section list at the cursor, behind `n` tags, and the descriptor. */
  function WithSections(p: Parcel, pos: nat, n: nat, t: Tables): Result
    requires Int32Cells(p) && forall u :: u in t.tags ==> u in t.names && u in t.sectionOf
  {
    if n == 0 then Built(t, [])
    else if !IntAt(p, pos) then Err(NOT_ENOUGH_DATA)
    else
      var count := ToUint32(p[pos].v);
      if count < (t.maxSection + 1) % UINT32 then Err(BAD_VALUE)
      else
        var listed := ReadNames(p, pos + 1, count);
        if listed.EmptyName? then Err(NOT_ENOUGH_DATA) else Built(t, InsertAll(listed.names))
  }

  /** createFromParcel. */
  function Decoded(p: Parcel): Result
    requires Int32Cells(p)
  {
    if !IntAt(p, 0) then Err(NOT_ENOUGH_DATA)
    else if p[0].v < 0 then Err(BAD_VALUE)
    else
      var r := ReadEntries(p, 1, p[0].v);
      if r.BadEntries? then Err(r.error) else WithSections(p, r.next, p[0].v, Filled(r.entries))
  }

  /** `r` with the entries read before it in front. */
  function Prepended(es: seq<Entry>, r: EntriesRead): EntriesRead {
    if r.BadEntries? then r else GoodEntries(es + r.entries, r.next)
  }

  lemma ReadOneMore(p: Parcel, pos: nat, n: nat, es: seq<Entry>)
    requires Int32Cells(p) && n > 0 && ReadEntry(p, pos).GoodEntry?
    ensures Prepended(es, ReadEntries(p, pos, n))
      == Prepended(es + [ReadEntry(p, pos).entry], ReadEntries(p, pos + 4, n - 1))
  {
    var more := ReadEntries(p, pos + 4, n - 1);
    if more.GoodEntries? {
      assert es + ([ReadEntry(p, pos).entry] + more.entries) == es + [ReadEntry(p, pos).entry] + more.entries;
    }
  }

  method ReadTags(p: Parcel, n: nat) returns (res: int, t: Tables, pos: nat, ghost es: seq<Entry>)
    requires Int32Cells(p)
    ensures res == OK ==> ReadEntries(p, 1, n) == GoodEntries(es, pos) && t == Filled(es)
    ensures res != OK ==> ReadEntries(p, 1, n) == BadEntries(res)
  {
    res, t, pos, es := OK, Tables([], map[], map[], map[], 0), 1, [];
    ghost var all := ReadEntries(p, 1, n);
    for i := 0 to n
      invariant all == Prepended(es, ReadEntries(p, pos, n - i))
      invariant t == Filled(es)
    {
      var r := ReadEntry(p, pos);
      if r.BadEntry? {
        res := r.error;
        return;
      }
      ReadOneMore(p, pos, n - i, es);
      assert (es + [r.entry])[..|es|] == es;
      t := Enter(t, r.entry);
      es := es + [r.entry];
      pos := pos + 4;
    }
  }

  function PrependedNames(l: seq<string>, r: NamesRead): NamesRead {
    if r.EmptyName? then r else GoodNames(l + r.names)
  }

  lemma ReadNameMore(p: Parcel, pos: nat, n: nat, l: seq<string>)
    requires n > 0 && StringAt(p, pos) != ""
    ensures PrependedNames(l, ReadNames(p, pos, n)) == PrependedNames(l + [StringAt(p, pos)], ReadNames(p, pos + 1, n - 1))
  {
    var more := ReadNames(p, pos + 1, n - 1);
    if more.GoodNames? {
      assert l + ([StringAt(p, pos)] + more.names) == l + [StringAt(p, pos)] + more.names;
    }
  }

  method ReadSections(p: Parcel, start: nat, n: nat) returns (res: int, sections: seq<string>, ghost listed: seq<string>)
    ensures res == OK ==> ReadNames(p, start, n) == GoodNames(listed) && sections == InsertAll(listed)
    ensures res != OK ==> ReadNames(p, start, n) == EmptyName && res == NOT_ENOUGH_DATA
  {
    res, sections, listed := OK, [], [];
    ghost var all := ReadNames(p, start, n);
    for i := 0 to n
      invariant all == PrependedNames(listed, ReadNames(p, start + i, n - i))
      invariant sections == InsertAll(listed)
    {
      var sectionName := StringAt(p, start + i);
      if sectionName == "" {
        res := NOT_ENOUGH_DATA;
        return;
      }
      ReadNameMore(p, start + i, n - i, listed);
      assert (listed + [sectionName])[..|listed|] == listed;
      sections := Insert(sections, sectionName);
      listed := listed + [sectionName];
    }
  }

  /** The last loop: the reverse index, tag by tag. */
  method BuildReverse(tags: seq<nat>, names: map<nat, string>, secs: map<nat, string>) returns (reverse: Reverse)
    requires forall t :: t in tags ==> t in names && t in secs
    ensures reverse == ReverseOf(tags, names, secs)
  {
    reverse := map[];
    for i := 0 to |tags|
      invariant reverse == ReverseOf(tags[..i], names, secs)
    {
      var tag := tags[i];
      ReverseOneMore(tags, i, names, secs);
      if secs[tag] !in reverse {
        reverse := reverse[secs[tag] := map[]];
      }
      reverse := reverse[secs[tag] := reverse[secs[tag]][names[tag] := tag]];
    }
    assert tags[..|tags|] == tags;
  }

  method Finish(t: Tables, sections: seq<string>) returns (r: Result)
    requires forall u :: u in t.tags ==> u in t.names && u in t.sectionOf
    ensures r == Built(t, sections)
  {
    if !InBounds(t, sections) {
      return Err(OUT_OF_BOUNDS);
    }
    var d := Descriptor(|t.tags|, t.names, t.sectionOf, t.types, sections, map[]);
    var reverse := BuildReverse(t.tags, t.names, SectionNames(d));
    r := Ok(d.(reverse := reverse));
  }

  method ReadRest(p: Parcel, pos: nat, n: nat, t: Tables) returns (r: Result)
    requires Int32Cells(p) && forall u :: u in t.tags ==> u in t.names && u in t.sectionOf
    ensures r == WithSections(p, pos, n, t)
  {
    var sections: seq<string> := [];
    if n != 0 {
      if !IntAt(p, pos) {
        return Err(NOT_ENOUGH_DATA);
      }
      var sectionCount := ToUint32(p[pos].v);
      if sectionCount < (t.maxSection + 1) % UINT32 {
        return Err(BAD_VALUE);
      }
      var res;
      ghost var listed;
      res, sections, listed := ReadSections(p, pos + 1, sectionCount);
      if res != OK {
        return Err(res);
      }
    }
    r := Finish(t, sections);
  }

  method CreateFromParcel(p: Parcel) returns (r: Result)
    requires Int32Cells(p)
    ensures r == Decoded(p)
  {
    if !IntAt(p, 0) {
      return Err(NOT_ENOUGH_DATA);
    }
    var tagCount := p[0].v;
    if tagCount < 0 {
      return Err(BAD_VALUE);
    }
    var res, t, pos, es := ReadTags(p, tagCount);
    if res != OK {
      return Err(res);
    }
    r := ReadRest(p, pos, tagCount, t);
  }
}
