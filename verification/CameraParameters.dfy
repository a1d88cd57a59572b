/**
 CameraParameters (libmocha/camera/CameraParameters.cpp): a map of camera settings with a flat text
 form.
 */
module CameraParameters {
  import opened Basics
  import opened CText
  import opened ParamText
  import opened SortedMap
  import Decimal

  type Params = Entries

  const KEY_PREVIEW_SIZE := "preview-size"

  function Set(m: Params, key: string, value: string): Params {
    if ValidText(key) && ValidText(value) then Put(m, key, value) else m
  }

  function Unflattened(s: string): Params {
    PutAll([], SplitItems(s))
  }

  lemma PutAllStep(m: Params, item: Item, more: seq<Item>)
    ensures PutAll(m, [item] + more) == PutAll(Put(m, item.key, item.value), more)
  {
    assert ([item] + more)[1..] == more;
  }

  class Parameters {
    var map_: Params

    ghost predicate Valid()
      reads this
    {
      Sorted(map_) && Clean(map_)
    }

    constructor ()
      ensures Valid() && map_ == []
    {
      map_ := [];
    }

    method Flatten() returns (s: string)
      ensures s == FlattenItems(map_)
    {
      s := FlattenLoop(map_);
    }

    /** `a` is the start of the next key. */
    method UnflattenLoop(params: string)
      modifies this
      ensures map_ == Unflattened(params)
    {
      map_ := [];
      var a := 0;
      ghost var all, tail := Unflattened(params), SplitItems(params);
      while true
        invariant 0 <= a <= |params|
        invariant tail == SplitFrom(params, a) && PutAll(map_, tail) == all
        decreases |params| - a
      {
        var found, item, end, more := NextItem(params, a);
        if !found {
          break;
        }
        PutAllStep(map_, item, more);
        map_, tail := Put(map_, item.key, item.value), more;
        if end == |params| {
          break;
        }
        a := end + 1;
      }
    }

    /** Every key has the value of its last item. */
    method Unflatten(params: string)
      modifies this
      ensures Valid() && map_ == Unflattened(params)
      ensures forall key :: Get(map_, key) == LastValue(SplitItems(params), key)
    {
      UnflattenLoop(params);
      UnflattenedOk(params);
      forall key ensures Get(map_, key) == LastValue(SplitItems(params), key) {
        GetPutAll([], SplitItems(params), key);
      }
    }

    /** A key or value with a separator in it is ignored. */
    method SetParameter(key: string, value: string)
      requires Valid()
      modifies this
      ensures Valid() && map_ == Set(old(map_), key, value)
      ensures ValidText(key) && ValidText(value) ==> Get(map_, key) == Some(value)
      ensures !(ValidText(key) && ValidText(value)) ==> map_ == old(map_)
      ensures forall other :: other != key ==> Get(map_, other) == Get(old(map_), other)
    {
      FindSpec(key, 0, '=');
      FindSpec(key, 0, ';');
      FindSpec(value, 0, '=');
      FindSpec(value, 0, ';');
      if FindFrom(key, 0, '=') < |key| || FindFrom(key, 0, ';') < |key| {
        return;
      }
      if FindFrom(value, 0, '=') < |value| || FindFrom(value, 0, ';') < |value| {
        return;
      }
      SetKeepsOk(map_, key, value);
      GetPut(map_, key, value);
      forall other | other != key ensures Get(Put(map_, key, value), other) == Get(map_, other) {
        GetPutOther(map_, key, value, other);
      }
      map_ := Put(map_, key, value);
    }

    /** The key is gone and every other key keeps its value. */
    method RemoveParameter(key: string)
      requires Valid()
      modifies this
      ensures Valid() && map_ == Remove(old(map_), key)
      ensures Get(map_, key) == None
      ensures forall other :: other != key ==> Get(map_, other) == Get(old(map_), other)
    {
      RemoveKeepsOk(map_, key);
      forall other ensures Get(Remove(map_, key), key) == None && (other != key ==> Get(Remove(map_, key), other) == Get(map_, other)) {
        GetRemove(map_, key, other);
      }
      assert Get(Remove(map_, key), key) == None by {
        GetRemove(map_, key, key);
      }
      map_ := Remove(map_, key);
    }
  }

  datatype Op = OpSet(key: string, value: string) | OpRemove(key: string) | OpUnflatten(text: string)

  /** The map after any sequence of operations on an empty one. */
  function After(ops: seq<Op>): Params {
    if ops == [] then []
    else
      var m := After(ops[..|ops| - 1]);
      match ops[|ops| - 1]
      case OpSet(key, value) => Set(m, key, value)
      case OpRemove(key) => Remove(m, key)
      case OpUnflatten(text) => Unflattened(text)
  }

  lemma CleanByMembers(m: Params)
    requires forall e :: e in m ==> CleanItem(e)
    ensures Clean(m)
  {
    forall i | 0 <= i < |m| ensures CleanItem(m[i]) {
      assert m[i] in m;
    }
  }

  lemma UnflattenedOk(text: string)
    ensures Sorted(Unflattened(text)) && Clean(Unflattened(text))
  {
    var items := SplitItems(text);
    SplitIsClean(text, 0);
    PutAllKeeps([], items);
    CleanByMembers(Unflattened(text));
  }

  lemma SetKeepsOk(m: Params, key: string, value: string)
    requires Sorted(m) && Clean(m) && ValidText(key) && ValidText(value)
    ensures Sorted(Put(m, key, value)) && Clean(Put(m, key, value))
  {
    PutSorted(m, key, value);
    PutEntries(m, key, value);
    CleanByMembers(Put(m, key, value));
  }

  lemma RemoveKeepsOk(m: Params, key: string)
    requires Sorted(m) && Clean(m)
    ensures Sorted(Remove(m, key)) && Clean(Remove(m, key))
  {
    RemoveSorted(m, key);
    CleanByMembers(Remove(m, key));
  }

  /** Every reachable map is sorted, has no '=' in a key and no ';' in a value. */
  lemma {:induction false} ReachableOk(ops: seq<Op>)
    ensures Sorted(After(ops)) && Clean(After(ops))
  {
    if ops != [] {
      var m := After(ops[..|ops| - 1]);
      ReachableOk(ops[..|ops| - 1]);
      match ops[|ops| - 1]
      case OpSet(key, value) =>
        if ValidText(key) && ValidText(value) {
          SetKeepsOk(m, key, value);
        }
      case OpRemove(key) =>
        RemoveKeepsOk(m, key);
      case OpUnflatten(text) =>
        UnflattenedOk(text);
    }
  }

  /** Flattening and unflattening gives back every map that any sequence of operations can produce. */
  lemma UnflattenInvertsFlatten(ops: seq<Op>)
    ensures Unflattened(FlattenItems(After(ops))) == After(ops)
  {
    var m := After(ops);
    ReachableOk(ops);
    SplitInvertsFlatten(m);
    assert [] + m == m;
    PutAllSorted([], m);
  }

  /** get: an absent or empty value reads as nothing. */
  function GetString(m: Params, key: string): Option<string> {
    match Get(m, key)
    case None => None
    case Some(v) => if v == "" then None else Some(v)
  }

  function SetPreviewSize(m: Params, w: int, h: int): Params {
    Set(m, KEY_PREVIEW_SIZE, Decimal.PrintPair(w, h, 'x'))
  }

  /** (-1, -1) unless the value begins with a pair. */
  function GetPreviewSize(m: Params): (int, int) {
    match GetString(m, KEY_PREVIEW_SIZE)
    case None => (-1, -1)
    case Some(v) =>
      match Decimal.ParsePair(v, 0, 'x')
      case NoPair => (-1, -1)
      case SomePair(w, h, _) => (w, h)
  }

  lemma {:induction false} DigitsOnly(n: nat)
    ensures forall c :: c in Decimal.PrintNat(n) ==> Decimal.IsDigit(c)
  {
    if n >= 10 {
      DigitsOnly(n / 10);
    }
  }

  lemma NumberIsValidText(n: int)
    ensures ValidText(Decimal.Print(n))
  {
    DigitsOnly(if n < 0 then -n else n);
  }

  lemma PairIsValidText(a: string, b: string)
    requires ValidText(a) && ValidText(b)
    ensures ValidText(Decimal.PairText(a, b, 'x')) && Decimal.PairText(a, b, 'x') != ""
  {
  }

  /** Any valid text set under a key is found there again after a flatten and an unflatten. */
  lemma SetSurvives(ops: seq<Op>, key: string, text: string)
    requires ValidText(key) && ValidText(text)
    ensures Get(Unflattened(FlattenItems(Set(After(ops), key, text))), key) == Some(text)
  {
    var ops' := ops + [OpSet(key, text)];
    assert ops'[..|ops'| - 1] == ops && ops'[|ops'| - 1] == OpSet(key, text);
    assert After(ops') == Set(After(ops), key, text);
    UnflattenInvertsFlatten(ops');
    GetPut(After(ops), key, text);
  }

  lemma SizeTextReadsBack(m: Params, text: string, z: Decimal.Size)
    requires Decimal.SizeText(text, z) && text != "" && Get(m, KEY_PREVIEW_SIZE) == Some(text)
    ensures GetPreviewSize(m) == (z.width, z.height)
  {
    assert At(text, 0, text);
    assert Decimal.ParsePair(text, 0, 'x') == Decimal.SomePair(z.width, z.height, |text|);
  }

  /** Any preview size of 32-bit integers, negative ones included, survives being set on any reachable
      map, flattened, unflattened and read back. */
  lemma PreviewSizeRoundTrip(ops: seq<Op>, w: int, h: int)
    requires Decimal.Int32(w) && Decimal.Int32(h)
    ensures GetPreviewSize(Unflattened(FlattenItems(SetPreviewSize(After(ops), w, h)))) == (w, h)
  {
    NumberIsValidText(w);
    NumberIsValidText(h);
    PairIsValidText(Decimal.Print(w), Decimal.Print(h));
    Decimal.PrintedSize(Decimal.Size(w, h));
    var text := Decimal.PrintPair(w, h, 'x');
    var m := Unflattened(FlattenItems(Set(After(ops), KEY_PREVIEW_SIZE, text)));
    SetSurvives(ops, KEY_PREVIEW_SIZE, text);
    SizeTextReadsBack(m, text, Decimal.Size(w, h));
  }

  /** What the text form of a size is. */
  lemma PreviewSizeText()
    ensures FlattenItems(SetPreviewSize([], 640, 480)) == "preview-size=640x480"
  {
    Decimal.PrintMore(6, 4);
    Decimal.PrintMore(64, 0);
    Decimal.PrintMore(4, 8);
    Decimal.PrintMore(48, 0);
    assert Decimal.PrintNat(640) == "640" && Decimal.PrintNat(480) == "480";
    PutText(Decimal.Print(640), Decimal.Print(480));
  }

  lemma PutText(a: string, b: string)
    requires ValidText(a) && ValidText(b)
    ensures FlattenItems(Set([], KEY_PREVIEW_SIZE, Decimal.PairText(a, b, 'x'))) == "preview-size=" + a + "x" + b
  {
  }

  lemma NoDelimiter(m: Params, text: string)
    requires Get(m, KEY_PREVIEW_SIZE) == Some(text) && 'x' !in text
    ensures GetPreviewSize(m) == (-1, -1)
  {
    var end := Decimal.Strtol(text, 0).end;
    assert end < |text| ==> text[end] in text;
  }

  lemma RemovedReadsAsNone(m: Params)
    requires Get(m, KEY_PREVIEW_SIZE) == None
    ensures GetPreviewSize(m) == (-1, -1)
  {
  }

  lemma SetWithoutDelimiter(m: Params, text: string)
    requires ValidText(text) && 'x' !in text
    ensures GetPreviewSize(Set(m, KEY_PREVIEW_SIZE, text)) == (-1, -1)
  {
    GetPut(m, KEY_PREVIEW_SIZE, text);
    NoDelimiter(Set(m, KEY_PREVIEW_SIZE, text), text);
  }

  /** A removed size, and one whose text has no delimiter, reads as (-1, -1). */
  lemma NoPreviewSize(ops: seq<Op>, text: string)
    requires ValidText(text) && 'x' !in text
    ensures GetPreviewSize(Remove(After(ops), KEY_PREVIEW_SIZE)) == (-1, -1)
    ensures GetPreviewSize(Set(After(ops), KEY_PREVIEW_SIZE, text)) == (-1, -1)
  {
    ReachableOk(ops);
    GetRemove(After(ops), KEY_PREVIEW_SIZE, KEY_PREVIEW_SIZE);
    RemovedReadsAsNone(Remove(After(ops), KEY_PREVIEW_SIZE));
    SetWithoutDelimiter(After(ops), text);
  }

  /** An empty value is kept in the map and in its text, but get reports it as nothing. */
  lemma EmptyValueReadsAsNothing(ops: seq<Op>, key: string)
    requires ValidText(key)
    ensures Get(Unflattened(FlattenItems(Set(After(ops), key, ""))), key) == Some("")
    ensures GetString(Unflattened(FlattenItems(Set(After(ops), key, ""))), key) == None
    ensures forall value :: value != "" && ValidText(value) ==> GetString(Set(After(ops), key, value), key) == Some(value)
  {
    SetSurvives(ops, key, "");
    forall value | value != "" && ValidText(value) ensures GetString(Set(After(ops), key, value), key) == Some(value) {
      GetPut(After(ops), key, value);
    }
  }
}
