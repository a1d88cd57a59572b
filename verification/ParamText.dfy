/**
 The text form shared by CameraParameters and CameraParameters2 (libmocha/camera): `key=value` items
 separated by semicolons.
 */
module ParamText {
  import opened Basics
  import opened CText

  datatype Item = Item(key: string, value: string)

  function FlattenItem(item: Item): string {
    item.key + ("=" + item.value)
  }

  function FlattenItems(items: seq<Item>): string {
    if items == [] then ""
    else if |items| == 1 then FlattenItem(items[0])
    else FlattenItem(items[0]) + (";" + FlattenItems(items[1..]))
  }

  /** The first item from a cursor on, and where its value ends. */
  datatype Cut = NoItem | Found(item: Item, end: nat)

  function FirstItem(s: string, i: nat): (r: Cut)
    requires i <= |s|
    ensures r.Found? ==> i < r.end <= |s|
  {
    var e := FindFrom(s, i, '=');
    if e == |s| then NoItem
    else
      var f := FindFrom(s, e + 1, ';');
      Found(Item(s[i..e], s[e + 1..f]), f)
  }

  /** The items unflatten finds from cursor `i` on, in order. */
  function SplitFrom(s: string, i: nat): seq<Item>
    requires i <= |s|
    decreases |s| - i
  {
    match FirstItem(s, i)
    case NoItem => []
    case Found(item, end) => if end == |s| then [item] else [item] + SplitFrom(s, end + 1)
  }

  function SplitItems(s: string): seq<Item> {
    SplitFrom(s, 0)
  }

  /** No '=' in the key, no ';' in the value. */
  ghost predicate CleanItem(item: Item) {
    '=' !in item.key && ';' !in item.value
  }

  /** What every reachable parameter map satisfies. */
  ghost predicate Clean(items: seq<Item>) {
    forall i :: 0 <= i < |items| ==> CleanItem(items[i])
  }

  lemma SliceHasNo(s: string, i: nat, k: nat, c: char)
    requires i <= k <= |s| && forall j :: i <= j < k ==> s[j] != c
    ensures c !in s[i..k]
  {
  }

  lemma FirstItemClean(s: string, i: nat)
    requires i <= |s|
    ensures FirstItem(s, i).Found? ==> CleanItem(FirstItem(s, i).item)
  {
    var e := FindFrom(s, i, '=');
    FindSpec(s, i, '=');
    if e != |s| {
      var f := FindFrom(s, e + 1, ';');
      FindSpec(s, e + 1, ';');
      SliceHasNo(s, i, e, '=');
      SliceHasNo(s, e + 1, f, ';');
    }
  }

  lemma {:induction false} SplitIsClean(s: string, i: nat)
    requires i <= |s|
    ensures Clean(SplitFrom(s, i))
    decreases |s| - i
  {
    var r := FirstItem(s, i);
    if r.Found? {
      FirstItemClean(s, i);
      if r.end != |s| {
        SplitIsClean(s, r.end + 1);
      }
    }
  }

  /** Where a clean item stands, its separators are the ones the scan finds. */
  lemma FindsItem(s: string, i: nat, item: Item, end: nat)
    requires CleanItem(item) && At(s, i, FlattenItem(item)) && end == i + |FlattenItem(item)|
    requires end == |s| || s[end] == ';'
    ensures FirstItem(s, i) == Found(item, end)
  {
    var e := i + |item.key|;
    AtParts(s, i, item.key, "=" + item.value);
    AtParts(s, e, "=", item.value);
    assert s[e] == "="[0];
    AtSlice(s, i, item.key, '=');
    AtSlice(s, e + 1, item.value, ';');
    FindUnique(s, i, '=', e);
    FindUnique(s, e + 1, ';', end);
  }

  lemma SplitNext(s: string, i: nat, items: seq<Item>, end: nat)
    requires items != [] && i <= |s| && FirstItem(s, i) == Found(items[0], end) && end != |s|
    requires SplitFrom(s, end + 1) == items[1..]
    ensures SplitFrom(s, i) == items
  {
    assert items == [items[0]] + items[1..];
  }

  lemma {:induction false} SplitOfFlattened(s: string, i: nat, items: seq<Item>)
    requires Clean(items) && At(s, i, FlattenItems(items)) && i + |FlattenItems(items)| == |s|
    ensures SplitFrom(s, i) == items
    decreases |items|
  {
    if items == [] {
      assert FindFrom(s, i, '=') == |s|;
    } else if |items| == 1 {
      FindsItem(s, i, items[0], |s|);
      assert items == [items[0]];
    } else {
      var t, more := FlattenItem(items[0]), FlattenItems(items[1..]);
      var end := i + |t|;
      AtParts(s, i, t, ";" + more);
      AtParts(s, end, ";", more);
      assert s[end] == ";"[0];
      SplitOfFlattened(s, end + 1, items[1..]);
      FindsItem(s, i, items[0], end);
      SplitNext(s, i, items, end);
    }
  }

  /** Splitting inverts flattening on every clean list, including the order and repeated keys. */
  lemma SplitInvertsFlatten(items: seq<Item>)
    requires Clean(items)
    ensures SplitItems(FlattenItems(items)) == items
  {
    SplitOfFlattened(FlattenItems(items), 0, items);
  }

  predicate ValidText(s: string) {
    '=' !in s && ';' !in s
  }

  lemma FlattenFirst(items: seq<Item>, i: nat, separator: string)
    requires i < |items| && separator == if i != |items| - 1 then ";" else ""
    ensures FlattenItems(items[i..]) == FlattenItem(items[i]) + (separator + FlattenItems(items[i + 1..]))
  {
    assert items[i..][1..] == items[i + 1..];
  }

  lemma FlattenedTogether(before: string, item: Item, separator: string, rest: string)
    ensures before + (FlattenItem(item) + (separator + rest))
      == before + item.key + "=" + item.value + separator + rest
  {
  }

  /** flatten: one pass over the items, a semicolon after each but the last. */
  method FlattenLoop(items: seq<Item>) returns (flattened: string)
    ensures flattened == FlattenItems(items)
  {
    flattened := "";
    var size := |items|;
    ghost var all, rest := FlattenItems(items), FlattenItems(items);
    assert items[0..] == items;
    for i := 0 to size
      invariant rest == FlattenItems(items[i..]) && flattened + rest == all
    {
      var separator := if i != size - 1 then ";" else "";
      FlattenFirst(items, i, separator);
      rest := FlattenItems(items[i + 1..]);
      FlattenedTogether(flattened, items[i], separator, rest);
      flattened := flattened + items[i].key;
      flattened := flattened + "=";
      flattened := flattened + items[i].value;
      flattened := flattened + separator;
    }
    assert rest == "";
  }

  /** One turn of unflatten from cursor `a`: the next item and the cursor behind its value. */
  method NextItem(params: string, a: nat) returns (found: bool, item: Item, end: nat, ghost more: seq<Item>)
    requires a <= |params|
    ensures !found ==> SplitFrom(params, a) == []
    ensures found ==> a < end <= |params| && SplitFrom(params, a) == [item] + more
    ensures found && end == |params| ==> more == []
    ensures found && end != |params| ==> more == SplitFrom(params, end + 1)
  {
    found, item, end, more := false, Item("", ""), a, [];
    ghost var cut := FirstItem(params, a);
    var b := FindFrom(params, a, '=');
    if b != |params| {
      end := FindFrom(params, b + 1, ';');
      found, item := true, Item(params[a..b], params[b + 1..end]);
      assert cut == Found(item, end);
      more := if end == |params| then [] else SplitFrom(params, end + 1);
    }
  }
}
