/**
 The sorted vector of key/value pairs that Android's KeyedVector is (its implementation is not part of
 this model): keys strictly increasing, `add` inserts in order or replaces.
 */
module SortedMap {
  import opened Basics
  import opened CText
  import opened ParamText

  type Entries = seq<Item>

  ghost predicate Sorted(m: Entries) {
    forall i, j :: 0 <= i < j < |m| ==> Less(m[i].key, m[j].key)
  }

  /** KeyedVector::add and replaceValueFor. */
  function Put(m: Entries, k: string, v: string): Entries {
    if m == [] then [Item(k, v)]
    else if m[0].key == k then [Item(k, v)] + m[1..]
    else if Less(k, m[0].key) then [Item(k, v)] + m
    else [m[0]] + Put(m[1..], k, v)
  }

  function Remove(m: Entries, k: string): Entries {
    if m == [] then []
    else if m[0].key == k then m[1..]
    else [m[0]] + Remove(m[1..], k)
  }

  function Get(m: Entries, k: string): Option<string> {
    if m == [] then None else if m[0].key == k then Some(m[0].value) else Get(m[1..], k)
  }

  lemma SortedCons(e: Item, m: Entries)
    requires Sorted(m) && forall i :: 0 <= i < |m| ==> Less(e.key, m[i].key)
    ensures Sorted([e] + m)
  {
  }

  /** Every entry of the result is the new one or an old one. */
  lemma {:induction false} PutEntries(m: Entries, k: string, v: string)
    ensures forall e :: e in Put(m, k, v) ==> e == Item(k, v) || e in m
  {
    if m != [] && m[0].key != k && !Less(k, m[0].key) {
      PutEntries(m[1..], k, v);
    }
  }

  lemma {:induction false} PutSorted(m: Entries, k: string, v: string)
    requires Sorted(m)
    ensures Sorted(Put(m, k, v))
  {
    if m == [] {
    } else if m[0].key == k {
      SortedCons(Item(k, v), m[1..]);
    } else if Less(k, m[0].key) {
      forall i | 0 <= i < |m| ensures Less(k, m[i].key) {
        if i > 0 {
          LessTransitive(k, m[0].key, m[i].key);
        }
      }
      SortedCons(Item(k, v), m);
    } else {
      LessTotal(k, m[0].key);
      PutSorted(m[1..], k, v);
      PutEntries(m[1..], k, v);
      var rest := Put(m[1..], k, v);
      forall i | 0 <= i < |rest| ensures Less(m[0].key, rest[i].key) {
        assert rest[i] in rest;
      }
      SortedCons(m[0], rest);
    }
  }

  lemma {:induction false} RemoveSorted(m: Entries, k: string)
    requires Sorted(m)
    ensures Sorted(Remove(m, k))
    ensures forall e :: e in Remove(m, k) ==> e in m
  {
    if m != [] && m[0].key != k {
      RemoveSorted(m[1..], k);
      var rest := Remove(m[1..], k);
      forall i | 0 <= i < |rest| ensures Less(m[0].key, rest[i].key) {
        assert rest[i] in m[1..];
      }
      SortedCons(m[0], rest);
    }
  }

  /** A key above all others goes to the end. */
  lemma {:induction false} PutLast(m: Entries, k: string, v: string)
    requires forall i :: 0 <= i < |m| ==> Less(m[i].key, k)
    ensures Put(m, k, v) == m + [Item(k, v)]
  {
    if m != [] {
      LessTotal(m[0].key, k);
      PutLast(m[1..], k, v);
    }
  }

  lemma {:induction false} GetPut(m: Entries, k: string, v: string)
    ensures Get(Put(m, k, v), k) == Some(v)
  {
    if m != [] && m[0].key != k && !Less(k, m[0].key) {
      GetPut(m[1..], k, v);
    }
  }

  lemma {:induction false} GetPutOther(m: Entries, k: string, v: string, other: string)
    requires other != k
    ensures Get(Put(m, k, v), other) == Get(m, other)
  {
    if m != [] && m[0].key != k && !Less(k, m[0].key) {
      GetPutOther(m[1..], k, v, other);
    }
  }

  lemma {:induction false} GetAbsent(m: Entries, k: string)
    requires forall i :: 0 <= i < |m| ==> m[i].key != k
    ensures Get(m, k) == None
  {
    if m != [] {
      GetAbsent(m[1..], k);
    }
  }

  /** A removed key is gone, and every other key keeps its value. */
  lemma {:induction false} GetRemove(m: Entries, k: string, other: string)
    requires Sorted(m)
    ensures Get(Remove(m, k), k) == None
    ensures other != k ==> Get(Remove(m, k), other) == Get(m, other)
  {
    if m != [] {
      if m[0].key == k {
        forall i | 0 <= i < |m[1..]| ensures m[1..][i].key != k {
          LessTotal(k, m[i + 1].key);
        }
        GetAbsent(m[1..], k);
      } else {
        GetRemove(m[1..], k, other);
      }
    }
  }

  /** The value of the last pair with this key. */
  function LastValue(items: Entries, k: string): Option<string> {
    if items == [] then None
    else
      var later := LastValue(items[1..], k);
      if later.Some? then later else if items[0].key == k then Some(items[0].value) else None
  }

  /** Adding the pairs of `items` one after the other. */
  function PutAll(m: Entries, items: Entries): Entries
    decreases |items|
  {
    if items == [] then m else PutAll(Put(m, items[0].key, items[0].value), items[1..])
  }

  /** Adding an already sorted list behind a smaller one just appends it. */
  lemma {:induction false} PutAllSorted(m: Entries, items: Entries)
    requires Sorted(m + items)
    ensures PutAll(m, items) == m + items
    decreases |items|
  {
    if items == [] {
      assert m + items == m;
    } else {
      var Item(k, v) := items[0];
      var all := m + items;
      forall i | 0 <= i < |m| ensures Less(m[i].key, k) {
        assert all[i] == m[i] && all[|m|] == items[0];
      }
      PutLast(m, k, v);
      assert m + [Item(k, v)] + items[1..] == all;
      PutAllSorted(m + [Item(k, v)], items[1..]);
    }
  }

  lemma {:induction false} PutAllKeeps(m: Entries, items: Entries)
    requires Sorted(m)
    ensures Sorted(PutAll(m, items))
    ensures forall e :: e in PutAll(m, items) ==> e in m || e in items
    decreases |items|
  {
    if items != [] {
      var Item(k, v) := items[0];
      PutSorted(m, k, v);
      PutEntries(m, k, v);
      PutAllKeeps(Put(m, k, v), items[1..]);
    }
  }

  /** A key that is added more than once has its last value. */
  lemma {:induction false} GetPutAll(m: Entries, items: Entries, k: string)
    ensures Get(PutAll(m, items), k) == if LastValue(items, k).Some? then LastValue(items, k) else Get(m, k)
    decreases |items|
  {
    if items != [] {
      var Item(key, value) := items[0];
      GetPutAll(Put(m, key, value), items[1..], k);
      if key == k {
        GetPut(m, key, value);
      } else {
        GetPutOther(m, key, value, k);
      }
    }
  }
}
