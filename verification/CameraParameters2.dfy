/**
 CameraParameters2 (libmocha/camera/CameraParameters2.cpp): the variant whose list of settings keeps
 the order in which they were last set.
 */
module CameraParameters2 {
  import opened Basics
  import opened CText
  import opened ParamText

  type Settings = seq<Item>

  const OK := 0
  const NAME_NOT_FOUND := -2

  /** indexOfKey: the first entry with this key, or the length of the list. */
  function IndexOf(l: Settings, key: string): (i: nat)
    ensures i <= |l| && (i < |l| ==> l[i].key == key)
    ensures forall j :: 0 <= j < i ==> l[j].key != key
  {
    if l == [] || l[0].key == key then 0 else 1 + IndexOf(l[1..], key)
  }

  /** removeItem: without the first entry of this key; an absent key removes nothing. */
  function Removed(l: Settings, key: string): Settings {
    var i := IndexOf(l, key);
    if i == |l| then l else l[..i] + l[i + 1..]
  }

  /** replaceValueFor behind the checks of set: the key moves to the end. */
  function Set(l: Settings, key: string, value: string): Settings {
    if ValidText(key) && ValidText(value) then Removed(l, key) + [Item(key, value)] else l
  }

  class Parameters2 {
    var list_: Settings

    constructor ()
      ensures list_ == []
    {
      list_ := [];
    }

    method IndexOfKey(key: string) returns (idx: int)
      ensures idx == if IndexOf(list_, key) == |list_| then NAME_NOT_FOUND else IndexOf(list_, key)
    {
      for vectorIdx := 0 to |list_|
        invariant forall j :: 0 <= j < vectorIdx ==> list_[j].key != key
      {
        if list_[vectorIdx].key == key {
          return vectorIdx;
        }
      }
      return NAME_NOT_FOUND;
    }

    method RemoveItem(key: string)
      modifies this
      ensures list_ == Removed(old(list_), key)
    {
      var idx := IndexOfKey(key);
      if idx >= 0 {
        list_ := list_[..idx] + list_[idx + 1..];
      }
    }

    method SetParameter(key: string, value: string)
      modifies this
      ensures list_ == Set(old(list_), key, value)
    {
      FindSpec(key, 0, '=');
      FindSpec(key, 0, ';');
      FindSpec(value, 0, '=');
      FindSpec(value, 0, ';');
      if FindFrom(key, 0, '=') < |key| || FindFrom(key, 0, ';') < |key| {
        return;
      }
      if FindFrom(value, 0, '=') < |value| || FindFrom(value, 0, ';') < |value| {
        return;
      }
      RemoveItem(key);
      list_ := list_ + [Item(key, value)];
    }

    method Flatten() returns (s: string)
      ensures s == FlattenItems(list_)
    {
      s := FlattenLoop(list_);
    }

    /** Every item found is appended, also one whose key is already there. */
    method Unflatten(params: string)
      modifies this
      ensures list_ == SplitItems(params)
    {
      list_ := [];
      var a := 0;
      ghost var all, tail := SplitItems(params), SplitItems(params);
      while true
        invariant 0 <= a <= |params|
        invariant tail == SplitFrom(params, a) && list_ + tail == all
        decreases |params| - a
      {
        var found, item, end, more := NextItem(params, a);
        if !found {
          break;
        }
        Regroup(list_, [item], more);
        list_, tail := list_ + [item], more;
        if end == |params| {
          break;
        }
        a := end + 1;
      }
    }

    method GetParameter(key: string) returns (found: bool, value: string)
      ensures found == (IndexOf(list_, key) < |list_|)
      ensures found ==> value == list_[IndexOf(list_, key)].value
    {
      var idx := IndexOfKey(key);
      if idx < 0 {
        return false, "";
      }
      return true, list_[idx].value;
    }

    /** compareSetOrder: negative, zero or positive as key1 stands before, at or behind key2. */
    method CompareSetOrder(key1: string, key2: string) returns (status: int, order: int)
      ensures status == Compared(list_, key1, key2).0 && order == Compared(list_, key1, key2).1
    {
      var index1 := IndexOfKey(key1);
      var index2 := IndexOfKey(key2);
      if index1 < 0 || index2 < 0 {
        return NAME_NOT_FOUND, 0;
      }
      status := OK;
      order := if index1 == index2 then 0 else if index1 < index2 then -1 else 1;
    }
  }

  function Compared(l: Settings, key1: string, key2: string): (int, int) {
    var i, j := IndexOf(l, key1), IndexOf(l, key2);
    if i == |l| || j == |l| then (NAME_NOT_FOUND, 0)
    else (OK, if i == j then 0 else if i < j then -1 else 1)
  }

  /** What can happen to the list: unflatten is a clear and one add for each item. */
  datatype Event = Clear | Add(key: string, value: string) | SetTo(key: string, value: string) | Drop(key: string)

  function Perform(l: Settings, e: Event): Settings {
    match e
    case Clear => []
    case Add(key, value) => l + [Item(key, value)]
    case SetTo(key, value) => Set(l, key, value)
    case Drop(key) => Removed(l, key)
  }

  function After(events: seq<Event>): Settings {
    if events == [] then [] else Perform(After(events[..|events| - 1]), events[|events| - 1])
  }

  /** The events of one unflatten. */
  function UnflattenEvents(text: string): seq<Event> {
    [Clear] + AddEvents(SplitItems(text))
  }

  function AddEvents(items: seq<Item>): (es: seq<Event>)
    ensures |es| == |items|
  {
    if items == [] then []
    else AddEvents(items[..|items| - 1]) + [Add(items[|items| - 1].key, items[|items| - 1].value)]
  }

  /** Running them from any state leaves exactly the items of the text. */
  lemma UnflattenIsItsEvents(before: seq<Event>, text: string)
    ensures After(before + UnflattenEvents(text)) == SplitItems(text)
  {
    assert (before + [Clear])[..|before|] == before;
    AfterAdds(before + [Clear], SplitItems(text));
    assert before + UnflattenEvents(text) == before + [Clear] + AddEvents(SplitItems(text));
  }

  lemma {:induction false} AfterAdds(before: seq<Event>, items: seq<Item>)
    ensures After(before + AddEvents(items)) == After(before) + items
  {
    if items == [] {
      assert before + AddEvents(items) == before;
    } else {
      var all := before + AddEvents(items);
      assert all[..|all| - 1] == before + AddEvents(items[..|items| - 1]);
      AfterAdds(before, items[..|items| - 1]);
      assert items == items[..|items| - 1] + [items[|items| - 1]];
    }
  }

  /** Adds come from texts, so their items are clean. */
  ghost predicate CleanEvents(events: seq<Event>) {
    forall i :: 0 <= i < |events| && events[i].Add? ==> CleanItem(Item(events[i].key, events[i].value))
  }

  lemma RemovedClean(l: Settings, key: string)
    requires Clean(l)
    ensures Clean(Removed(l, key))
  {
  }

  lemma {:induction false} ReachableClean(events: seq<Event>)
    requires CleanEvents(events)
    ensures Clean(After(events))
  {
    if events != [] {
      var l := After(events[..|events| - 1]);
      ReachableClean(events[..|events| - 1]);
      match events[|events| - 1]
      case Clear =>
      case Add(key, value) =>
        assert CleanItem(Item(key, value));
      case SetTo(key, value) =>
        RemovedClean(l, key);
      case Drop(key) =>
        RemovedClean(l, key);
    }
  }

  /** The calls a client can make. */
  datatype Op = OpSet(key: string, value: string) | OpRemove(key: string) | OpUnflatten(text: string)

  /** The events of any sequence of calls. */
  function History(ops: seq<Op>): seq<Event> {
    if ops == [] then []
    else
      History(ops[..|ops| - 1]) +
      match ops[|ops| - 1]
      case OpSet(key, value) => [SetTo(key, value)]
      case OpRemove(key) => [Drop(key)]
      case OpUnflatten(text) => UnflattenEvents(text)
  }

  lemma {:induction false} AddsClean(items: seq<Item>)
    requires Clean(items)
    ensures CleanEvents(AddEvents(items))
  {
    if items != [] {
      AddsClean(items[..|items| - 1]);
      assert CleanItem(items[|items| - 1]);
    }
  }

  lemma BothClean(a: seq<Event>, b: seq<Event>)
    requires CleanEvents(a) && CleanEvents(b)
    ensures CleanEvents(a + b)
  {
  }

  lemma {:induction false} HistoryClean(ops: seq<Op>)
    ensures CleanEvents(History(ops))
  {
    if ops != [] {
      HistoryClean(ops[..|ops| - 1]);
      match ops[|ops| - 1]
      case OpSet(key, value) => BothClean(History(ops[..|ops| - 1]), [SetTo(key, value)]);
      case OpRemove(key) => BothClean(History(ops[..|ops| - 1]), [Drop(key)]);
      case OpUnflatten(text) =>
        SplitIsClean(text, 0);
        AddsClean(SplitItems(text));
        BothClean([Clear], AddEvents(SplitItems(text)));
        BothClean(History(ops[..|ops| - 1]), UnflattenEvents(text));
    }
  }

  /** Unflatten gives back the list after every sequence of calls: items, repeated keys and order. */
  lemma UnflattenInvertsFlatten(ops: seq<Op>)
    ensures Clean(After(History(ops)))
    ensures SplitItems(FlattenItems(After(History(ops)))) == After(History(ops))
  {
    HistoryClean(ops);
    ReachableClean(History(ops));
    SplitInvertsFlatten(After(History(ops)));
  }

  /** When the key got its present value: the position of the event, or -1 if it has none. */
  function LastSet(events: seq<Event>, key: string): (t: int)
    ensures -1 <= t < |events|
  {
    if events == [] then -1
    else
      var earlier := LastSet(events[..|events| - 1], key);
      match events[|events| - 1]
      case Clear => -1
      case Add(k, v) => if k == key then |events| - 1 else earlier
      case SetTo(k, v) => if k == key && ValidText(k) && ValidText(v) then |events| - 1 else earlier
      case Drop(k) => if k == key then -1 else earlier
  }

  /** Since the last clear, no event added a key that was already there. */
  ghost predicate FreshAdds(events: seq<Event>) {
    events == [] || events[|events| - 1].Clear? ||
    (FreshAdds(events[..|events| - 1]) &&
     (events[|events| - 1].Add? ==> LastSet(events[..|events| - 1], events[|events| - 1].key) == -1))
  }

  /** The list holds the keys that have a value, in the order of their last set, with that value. */
  ghost predicate InSetOrder(events: seq<Event>, l: Settings) {
    && (forall i, j :: 0 <= i < j < |l| ==> LastSet(events, l[i].key) < LastSet(events, l[j].key))
    && (forall i :: 0 <= i < |l| ==> Holds(events, l[i]))
    && (forall key :: LastSet(events, key) >= 0 ==> IndexOf(l, key) < |l|)
  }

  ghost predicate Holds(events: seq<Event>, item: Item) {
    var t := LastSet(events, item.key);
    t >= 0 && (events[t] == SetTo(item.key, item.value) || events[t] == Add(item.key, item.value))
  }

  predicate Distinct(l: Settings) {
    forall i, j :: 0 <= i < j < |l| ==> l[i].key != l[j].key
  }

  /** Where an entry of the shortened list was before. */
  function Before(l: Settings, key: string, i: nat): nat {
    if i < IndexOf(l, key) then i else i + 1
  }

  lemma RemovedAt(l: Settings, key: string, i: nat)
    requires i < |Removed(l, key)|
    ensures Before(l, key, i) < |l| && Removed(l, key)[i] == l[Before(l, key, i)]
  {
    if IndexOf(l, key) != |l| {
      CutAt(l, IndexOf(l, key), i);
    }
  }

  lemma CutAt(l: Settings, k: nat, i: nat)
    requires k < |l| && i < |l| - 1
    ensures (l[..k] + l[k + 1..])[i] == l[if i < k then i else i + 1]
  {
  }

  /** Without a repeated key, removing takes exactly that key out and keeps the others in order. */
  lemma RemovedExactly(l: Settings, key: string)
    requires Distinct(l)
    ensures forall i :: 0 <= i < |Removed(l, key)| ==> Removed(l, key)[i].key != key
    ensures forall other :: other != key && IndexOf(l, other) < |l| ==> IndexOf(Removed(l, key), other) < |Removed(l, key)|
  {
    var l', at := Removed(l, key), IndexOf(l, key);
    forall i | 0 <= i < |l'| ensures l'[i].key != key {
      RemovedAt(l, key, i);
      var k := Before(l, key, i);
      assert at < k ==> l[at].key != l[k].key;
    }
    forall other | other != key && IndexOf(l, other) < |l| ensures IndexOf(l', other) < |l'| {
      var i := IndexOf(l, other);
      assert l'[if i < at then i else i - 1].key == other;
    }
  }

  /** A key other than the last event's keeps its time. */
  lemma Untouched(events: seq<Event>, e: Event, key: string)
    requires e.Clear? || e.key != key
    ensures LastSet(events + [e], key) == if e.Clear? then -1 else LastSet(events, key)
  {
    assert (events + [e])[..|events|] == events;
  }

  lemma InOrderIsDistinct(events: seq<Event>, l: Settings)
    requires InSetOrder(events, l)
    ensures Distinct(l)
  {
    forall i, j | 0 <= i < j < |l| ensures l[i].key != l[j].key {
      assert LastSet(events, l[i].key) < LastSet(events, l[j].key);
    }
  }

  /** The same for all keys but one, which the list lacks. */
  ghost predicate OthersInOrder(events: seq<Event>, l: Settings, key: string) {
    && (forall i, j :: 0 <= i < j < |l| ==> LastSet(events, l[i].key) < LastSet(events, l[j].key))
    && (forall i :: 0 <= i < |l| ==> l[i].key != key && Holds(events, l[i]))
    && (forall other :: other != key && LastSet(events, other) >= 0 ==> IndexOf(l, other) < |l|)
  }

  lemma RemovedInOrder(events: seq<Event>, l: Settings, key: string)
    requires InSetOrder(events, l)
    ensures OthersInOrder(events, Removed(l, key), key)
  {
    InOrderIsDistinct(events, l);
    RemovedExactly(l, key);
    var l' := Removed(l, key);
    forall i, j | 0 <= i < j < |l'| ensures LastSet(events, l'[i].key) < LastSet(events, l'[j].key) {
      RemovedAt(l, key, i);
      RemovedAt(l, key, j);
      assert Before(l, key, i) < Before(l, key, j);
    }
  }

  lemma AbsentInOrder(events: seq<Event>, l: Settings, key: string)
    requires InSetOrder(events, l) && LastSet(events, key) == -1
    ensures OthersInOrder(events, l, key)
  {
    forall i | 0 <= i < |l| ensures l[i].key != key {
      assert Holds(events, l[i]);
    }
  }

  lemma HoldsUntouched(events: seq<Event>, e: Event, item: Item)
    requires Holds(events, item) && !e.Clear? && e.key != item.key
    ensures Holds(events + [e], item)
  {
    Untouched(events, e, item.key);
  }

  /** An event on one key leaves the others as they were. */
  lemma OthersStay(events: seq<Event>, l: Settings, e: Event)
    requires !e.Clear? && OthersInOrder(events, l, e.key)
    ensures OthersInOrder(events + [e], l, e.key)
  {
    var events' := events + [e];
    forall other | other != e.key ensures LastSet(events', other) == LastSet(events, other) {
      Untouched(events, e, other);
    }
    forall i | 0 <= i < |l| ensures Holds(events', l[i]) {
      HoldsUntouched(events, e, l[i]);
    }
  }

  lemma FirstAfterAppend(l: Settings, item: Item, key: string)
    ensures IndexOf(l + [item], key) ==
      if IndexOf(l, key) < |l| || item.key == key then IndexOf(l, key) else |l| + 1
  {
    var l', i := l + [item], IndexOf(l, key);
    assert forall j :: 0 <= j < i ==> l'[j].key != key;
    assert IndexOf(l', key) >= i;
    assert l'[i] == if i < |l| then l[i] else item;
  }

  /** With the key itself appended last, all are in order. */
  lemma AppendInOrder(events: seq<Event>, l: Settings, item: Item)
    requires OthersInOrder(events, l, item.key) && Holds(events, item) && LastSet(events, item.key) == |events| - 1
    requires forall i :: 0 <= i < |l| ==> LastSet(events, l[i].key) < |events| - 1
    ensures InSetOrder(events, l + [item])
  {
    var l' := l + [item];
    AppendIncreases(events, l, item);
    assert forall i :: 0 <= i < |l| ==> l'[i] == l[i];
    forall i | 0 <= i < |l'| ensures Holds(events, l'[i]) {
      assert i == |l| ==> l'[i] == item;
    }
    forall key | LastSet(events, key) >= 0 ensures IndexOf(l', key) < |l'| {
      FirstAfterAppend(l, item, key);
    }
  }

  lemma AppendIncreases(events: seq<Event>, l: Settings, item: Item)
    requires forall i, j :: 0 <= i < j < |l| ==> LastSet(events, l[i].key) < LastSet(events, l[j].key)
    requires forall i :: 0 <= i < |l| ==> LastSet(events, l[i].key) < LastSet(events, item.key)
    ensures var l' := l + [item];
      forall i, j :: 0 <= i < j < |l'| ==> LastSet(events, l'[i].key) < LastSet(events, l'[j].key)
  {
  }

  lemma SetLast(events: seq<Event>, l: Settings, e: Event)
    requires e.Add? || (e.SetTo? && ValidText(e.key) && ValidText(e.value))
    requires OthersInOrder(events, l, e.key)
    ensures InSetOrder(events + [e], l + [Item(e.key, e.value)])
  {
    OthersStay(events, l, e);
    forall i | 0 <= i < |l| ensures LastSet(events + [e], l[i].key) < |events| {
      Untouched(events, e, l[i].key);
    }
    assert (events + [e])[..|events|] == events;
    AppendInOrder(events + [e], l, Item(e.key, e.value));
  }

  lemma DropInOrder(events: seq<Event>, l: Settings, key: string)
    requires OthersInOrder(events, l, key)
    ensures InSetOrder(events + [Drop(key)], l)
  {
    OthersStay(events, l, Drop(key));
    assert (events + [Drop(key)])[..|events|] == events;
    assert LastSet(events + [Drop(key)], key) == -1;
  }

  lemma IgnoredInOrder(events: seq<Event>, l: Settings, e: Event)
    requires e.SetTo? && !(ValidText(e.key) && ValidText(e.value)) && InSetOrder(events, l)
    ensures InSetOrder(events + [e], l)
  {
    assert (events + [e])[..|events|] == events;
    forall key ensures LastSet(events + [e], key) == LastSet(events, key) { }
  }

  /** On every history that added no key twice since its last clear, the list is in the order of the last
      sets. */
  lemma {:induction false} ListIsInSetOrder(events: seq<Event>)
    requires FreshAdds(events)
    ensures InSetOrder(events, After(events))
  {
    if events != [] {
      var before, e := events[..|events| - 1], events[|events| - 1];
      var l := After(before);
      assert events == before + [e];
      if !e.Clear? {
        ListIsInSetOrder(before);
      }
      match e
      case Clear =>
      case Add(key, value) =>
        AbsentInOrder(before, l, key);
        SetLast(before, l, e);
      case SetTo(key, value) =>
        if ValidText(key) && ValidText(value) {
          RemovedInOrder(before, l, key);
          SetLast(before, Removed(l, key), e);
        } else {
          IgnoredInOrder(before, l, e);
        }
      case Drop(key) =>
        RemovedInOrder(before, l, key);
        DropInOrder(before, Removed(l, key), key);
    }
  }

  ghost predicate HasKey(l: Settings, key: string) {
    exists i :: 0 <= i < |l| && l[i].key == key
  }

  lemma {:induction false} LastSetOfAdds(before: seq<Event>, items: seq<Item>, key: string)
    ensures LastSet(before + [Clear] + AddEvents(items), key) >= 0 <==> HasKey(items, key)
  {
    var events := before + [Clear] + AddEvents(items);
    if items == [] {
      assert events == before + [Clear];
    } else {
      var front, last := items[..|items| - 1], items[|items| - 1];
      LastSetOfAdds(before, front, key);
      assert events[..|events| - 1] == before + [Clear] + AddEvents(front);
      assert items == front + [last];
      KeyOfAppended(front, last, key);
    }
  }

  lemma KeyOfAppended(front: Settings, last: Item, key: string)
    ensures HasKey(front + [last], key) <==> HasKey(front, key) || last.key == key
  {
    var l := front + [last];
    if HasKey(front, key) {
      var i :| 0 <= i < |front| && front[i].key == key;
      assert l[i].key == key;
    }
    assert l[|front|] == last;
  }

  lemma DistinctAppended(front: Settings, last: Item)
    ensures Distinct(front + [last]) <==> Distinct(front) && !HasKey(front, last.key)
  {
    var l := front + [last];
    assert forall i :: 0 <= i < |front| ==> l[i] == front[i];
    assert l[|front|] == last;
    if HasKey(front, last.key) {
      var i :| 0 <= i < |front| && front[i].key == last.key;
      assert l[i].key == l[|front|].key;
    }
  }

  lemma {:induction false} FreshAddsOf(before: seq<Event>, items: seq<Item>)
    ensures FreshAdds(before + [Clear] + AddEvents(items)) <==> Distinct(items)
  {
    var events := before + [Clear] + AddEvents(items);
    if items == [] {
      assert events == before + [Clear];
    } else {
      var front, last := items[..|items| - 1], items[|items| - 1];
      FreshAddsOf(before, front);
      assert events[..|events| - 1] == before + [Clear] + AddEvents(front);
      LastSetOfAdds(before, front, last.key);
      assert items == front + [last];
      DistinctAppended(front, last);
    }
  }

  /** The last text that was unflattened, if any, repeats no key. */
  predicate LastTextDistinct(ops: seq<Op>) {
    if ops == [] then true
    else if ops[|ops| - 1].OpUnflatten? then Distinct(SplitItems(ops[|ops| - 1].text))
    else LastTextDistinct(ops[..|ops| - 1])
  }

  lemma FreshOther(h: seq<Event>, e: Event)
    requires e.SetTo? || e.Drop?
    ensures FreshAdds(h + [e]) <==> FreshAdds(h)
  {
    assert (h + [e])[..|h|] == h;
  }

  lemma FreshUnflatten(h: seq<Event>, text: string)
    ensures FreshAdds(h + UnflattenEvents(text)) <==> Distinct(SplitItems(text))
  {
    var items := SplitItems(text);
    FreshAddsOf(h, items);
    assert h + ([Clear] + AddEvents(items)) == h + [Clear] + AddEvents(items);
  }

  lemma {:induction false} FreshAddsIff(ops: seq<Op>)
    ensures FreshAdds(History(ops)) <==> LastTextDistinct(ops)
  {
    if ops != [] {
      var h := History(ops[..|ops| - 1]);
      FreshAddsIff(ops[..|ops| - 1]);
      match ops[|ops| - 1]
      case OpSet(key, value) => FreshOther(h, SetTo(key, value));
      case OpRemove(key) => FreshOther(h, Drop(key));
      case OpUnflatten(text) => FreshUnflatten(h, text);
    }
  }

  /** compareSetOrder tells which of two keys was set last, over every sequence of calls whose last unflattened
      text repeats no key; it fails exactly when one of them has no value. */
  lemma CompareSetOrderIsHistoryOrder(ops: seq<Op>, key1: string, key2: string)
    requires LastTextDistinct(ops)
    ensures var t1, t2 := LastSet(History(ops), key1), LastSet(History(ops), key2);
      Compared(After(History(ops)), key1, key2) ==
        if t1 < 0 || t2 < 0 then (NAME_NOT_FOUND, 0)
        else (OK, if t1 == t2 then 0 else if t1 < t2 then -1 else 1)
  {
    FreshAddsIff(ops);
    ListIsInSetOrder(History(ops));
    OrderOfPositions(History(ops), After(History(ops)), key1, key2);
  }

  lemma OrderOfPositions(events: seq<Event>, l: Settings, key1: string, key2: string)
    requires InSetOrder(events, l)
    ensures var t1, t2 := LastSet(events, key1), LastSet(events, key2);
      Compared(l, key1, key2) ==
        if t1 < 0 || t2 < 0 then (NAME_NOT_FOUND, 0)
        else (OK, if t1 == t2 then 0 else if t1 < t2 then -1 else 1)
  {
    var i, j := IndexOf(l, key1), IndexOf(l, key2);
    if i < |l| {
      assert Holds(events, l[i]);
    }
    if j < |l| {
      assert Holds(events, l[j]);
    }
  }

  /** The value found under a key. */
  ghost predicate Gives(l: Settings, key: string, value: string) {
    IndexOf(l, key) < |l| && l[IndexOf(l, key)].value == value
  }

  ghost predicate AtMostOnce(l: Settings, key: string) {
    forall i, j :: 0 <= i < j < |l| && l[i].key == key ==> l[j].key != key
  }

  lemma RestLacksIff(l: Settings, key: string)
    ensures IndexOf(Removed(l, key), key) == |Removed(l, key)| <==> AtMostOnce(l, key)
  {
    var rest, at := Removed(l, key), IndexOf(l, key);
    if AtMostOnce(l, key) {
      forall i | 0 <= i < |rest| ensures rest[i].key != key {
        RemovedAt(l, key, i);
      }
    } else {
      var i, j :| 0 <= i < j < |l| && l[i].key == key && l[j].key == key;
      assert at <= i;
      assert rest[j - 1] == l[j];
    }
  }

  lemma SetGivesIff(l: Settings, key: string, value: string)
    requires ValidText(key) && ValidText(value)
    ensures var rest := Removed(l, key);
      Gives(Set(l, key, value), key, value)
      <==> IndexOf(rest, key) == |rest| || rest[IndexOf(rest, key)].value == value
  {
    FirstAfterAppend(Removed(l, key), Item(key, value), key);
  }

  /** Setting a key takes effect for every value exactly when the list has it at most once. */
  lemma SetTakesEffectIff(l: Settings, key: string)
    requires ValidText(key)
    ensures (forall value :: ValidText(value) ==> Gives(Set(l, key, value), key, value)) <==> AtMostOnce(l, key)
  {
    var rest := Removed(l, key);
    var k := IndexOf(rest, key);
    RestLacksIff(l, key);
    forall value | ValidText(value)
      ensures Gives(Set(l, key, value), key, value) <==> k == |rest| || rest[k].value == value
    {
      SetGivesIff(l, key, value);
    }
    if k < |rest| {
      var other := if rest[k].value == "" then "a" else "";
      assert ValidText(other) && !Gives(Set(l, key, other), key, other);
    }
  }

  lemma TwiceText()
    ensures SplitItems("a=1;a=2") == [Item("a", "1"), Item("a", "2")]
  {
    var items := [Item("a", "1"), Item("a", "2")];
    assert FlattenItems(items[1..]) == "a=2";
    assert FlattenItems(items) == "a=1;a=2";
    SplitInvertsFlatten(items);
  }

  /** Unflatten accepts a repeated key, and then a set is not seen: "a=1;a=2", set a to 3, get a is 2. */
  lemma RepeatedKeyHidesSet()
    ensures Gives(Set(SplitItems("a=1;a=2"), "a", "3"), "a", "2")
  {
    TwiceText();
    HiddenSet(Item("a", "1"), Item("a", "2"), "3");
  }

  lemma HiddenSet(first: Item, second: Item, value: string)
    requires first.key == second.key && ValidText(first.key) && ValidText(value)
    ensures Gives(Set([first, second], first.key, value), first.key, second.value)
  {
    var l := [first, second];
    assert IndexOf(l, first.key) == 0;
    assert Removed(l, first.key) == [second];
    assert Set(l, first.key, value) == [second, Item(first.key, value)];
  }
}
