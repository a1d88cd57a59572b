/**
 The walk of the route manager over its device table (configmgr/audio_config.c), for every table: which
 devices a request reaches, what happens to each, and exactly when the reached devices are the intended
 ones although devices of the two directions may share bits.
 */
module RouteWalk {
  import opened RouteManager
  import opened RouteDevice

  ghost function PathsOf(log: seq<Applied>, i: nat): seq<int> {
    if log == [] then []
    else PathsOf(log[..|log| - 1], i) + if log[|log| - 1].device == i then [log[|log| - 1].path] else []
  }

  ghost function View(cm: Cm, i: nat): Local
    requires i < |cm.devices|
  {
    Local(cm.devices[i].useCount, PathsOf(cm.log, i))
  }

  ghost predicate SameTable(a: seq<Device>, b: seq<Device>) {
    |a| == |b| && forall i :: 0 <= i < |a| ==> a[i].mask == b[i].mask && a[i].paths == b[i].paths
  }

  lemma PathView(cm: Cm, i: nat, id: int, j: nat)
    requires i < |cm.devices| && j < |cm.devices|
    ensures SameTable(ApplyPath(cm, i, id).devices, cm.devices)
    ensures View(ApplyPath(cm, i, id), j) == if j == i then LocalPath(View(cm, i), id) else View(cm, j)
  {
    var log := cm.log + [Applied(i, id)];
    assert log[..|log| - 1] == cm.log;
  }

  lemma ByIdView(cm: Cm, i: nat, first: int, second: int, j: nat)
    requires i < |cm.devices| && j < |cm.devices|
    ensures SameTable(ApplyById(cm, i, first, second).devices, cm.devices)
    ensures View(ApplyById(cm, i, first, second), j) ==
      if j == i then LocalById(View(cm, i), cm.devices[i].paths, first, second) else View(cm, j)
  {
    PathView(cm, i, first, j);
    PathView(cm, i, second, j);
    PathView(ApplyPath(cm, i, first), i, second, j);
  }

  // ---------------------------------------------------------------------------------------------
  // Which devices a walk reaches
  // ---------------------------------------------------------------------------------------------

  /** The devices a walk applies its paths to. */
  ghost function Touched(devices: seq<Device>, k: nat, flag: Mask, remaining: Mask): set<nat>
    requires k <= |devices|
    decreases |devices| - k
  {
    if k == |devices| then {}
    else if Hit(devices[k], flag, remaining) then {k} + Touched(devices, k + 1, flag, remaining - devices[k].mask)
    else Touched(devices, k + 1, flag, remaining)
  }

  lemma {:induction false} TouchedRange(devices: seq<Device>, k: nat, flag: Mask, remaining: Mask)
    requires k <= |devices|
    ensures forall i :: i in Touched(devices, k, flag, remaining) ==> k <= i < |devices| && devices[i].mask != {}
    decreases |devices| - k
  {
    if k < |devices| {
      TouchedRange(devices, k + 1, flag, remaining);
      TouchedRange(devices, k + 1, flag, remaining - devices[k].mask);
    }
  }

  lemma {:induction false} SameTableTouched(a: seq<Device>, b: seq<Device>, k: nat, flag: Mask, remaining: Mask)
    requires SameTable(a, b) && k <= |a|
    ensures Touched(a, k, flag, remaining) == Touched(b, k, flag, remaining)
    decreases |a| - k
  {
    if k < |a| {
      SameTableTouched(a, b, k + 1, flag, remaining);
      SameTableTouched(a, b, k + 1, flag, remaining - a[k].mask);
    }
  }

  /** For any table, with or without shared bits, the walk changes exactly the touched devices. */
  lemma {:induction false} WalkChangesTouched(cm: Cm, k: nat, flag: Mask, remaining: Mask, first: int, second: int, i: nat)
    requires k <= |cm.devices| && i < |cm.devices|
    ensures SameTable(Walk(cm, k, flag, remaining, first, second).devices, cm.devices)
    ensures View(Walk(cm, k, flag, remaining, first, second), i) ==
      if i in Touched(cm.devices, k, flag, remaining)
      then LocalById(View(cm, i), cm.devices[i].paths, first, second) else View(cm, i)
    decreases |cm.devices| - k
  {
    if k < |cm.devices| {
      if Hit(cm.devices[k], flag, remaining) {
        var cm', rest := ApplyById(cm, k, first, second), remaining - cm.devices[k].mask;
        ByIdView(cm, k, first, second, i);
        WalkChangesTouched(cm', k + 1, flag, rest, first, second, i);
        SameTableTouched(cm'.devices, cm.devices, k + 1, flag, rest);
        TouchedRange(cm.devices, k + 1, flag, rest);
      } else {
        WalkChangesTouched(cm, k + 1, flag, remaining, first, second, i);
      }
    }
  }

  /** The devices a request reaches. */
  ghost function Reached(devices: seq<Device>, m: Mask): set<nat> {
    Touched(devices, 0, m * {BIT_IN}, Low(m))
  }

  lemma SameReached(a: seq<Device>, b: seq<Device>, m: Mask)
    requires SameTable(a, b)
    ensures Reached(a, m) == Reached(b, m)
  {
    SameTableTouched(a, b, 0, m * {BIT_IN}, Low(m));
  }

  lemma ToDevicesView(cm: Cm, m: Mask, first: int, second: int, i: nat)
    requires i < |cm.devices|
    ensures SameTable(ToDevices(cm, m, first, second).devices, cm.devices)
    ensures View(ToDevices(cm, m, first, second), i) ==
      if i in Reached(cm.devices, m)
      then LocalById(View(cm, i), cm.devices[i].paths, first, second) else View(cm, i)
    ensures i in Reached(cm.devices, m) ==> cm.devices[i].mask != {}
  {
    WalkChangesTouched(cm, 0, m * {BIT_IN}, Low(m), first, second, i);
    TouchedRange(cm.devices, 0, m * {BIT_IN}, Low(m));
  }

  lemma SameGlobal(a: seq<Device>, b: seq<Device>)
    requires SameTable(a, b)
    ensures GlobalIndex(a) == GlobalIndex(b)
  {
    var g, h := GlobalIndex(a), GlobalIndex(b);
  }

  lemma ToGlobalView(cm: Cm, first: int, second: int, i: nat)
    requires i < |cm.devices|
    ensures SameTable(ToGlobal(cm, first, second).devices, cm.devices)
    ensures View(ToGlobal(cm, first, second), i) ==
      if i == GlobalIndex(cm.devices)
      then LocalById(View(cm, i), cm.devices[i].paths, first, second) else View(cm, i)
  {
    var g := GlobalIndex(cm.devices);
    if g < |cm.devices| {
      ByIdView(cm, g, first, second, i);
    }
  }

  // ---------------------------------------------------------------------------------------------
  // Reached and intended
  // ---------------------------------------------------------------------------------------------

  predicate IsInput(d: Device) { BIT_IN in d.mask }

  /** Whether a route includes a device with this mask. */
  predicate Includes(m: Mask, mask: Mask) {
    m * Low(mask) != {}
  }

  /** The device is one the caller means: of the stream's direction and in the mask. */
  predicate Intended(d: Device, input: bool, m: Mask) {
    IsInput(d) == input && Includes(m, d.mask)
  }

  /** Devices of one direction share no bit. */
  ghost predicate SameWayDisjoint(devices: seq<Device>) {
    forall i, j :: 0 <= i < j < |devices| && IsInput(devices[i]) == IsInput(devices[j]) ==>
      Low(devices[i].mask) * Low(devices[j].mask) == {}
  }

  /** The bits left for device `k` if the walk so far touched exactly the intended devices. */
  ghost function Left(devices: seq<Device>, input: bool, m: Mask, k: nat): Mask
    requires k <= |devices|
  {
    set x | x in Low(m) && forall j :: 0 <= j < k && Intended(devices[j], input, m) ==> x !in devices[j].mask
  }

  /** A device of the other direction with a requested bit that no intended device before it takes away;
      requests that carry the direction bit are immune. */
  ghost predicate Impostor(devices: seq<Device>, input: bool, m: Mask, k: nat) {
    BIT_IN !in m && k < |devices| && IsInput(devices[k]) != input && devices[k].mask * Left(devices, input, m, k) != {}
  }

  ghost predicate Clear(devices: seq<Device>, input: bool, m: Mask) {
    forall k :: 0 <= k < |devices| ==> !Impostor(devices, input, m, k)
  }

  lemma HitIffIntendedOrImpostor(devices: seq<Device>, input: bool, m: Mask, k: nat)
    requires SameWayDisjoint(devices) && (BIT_IN in m ==> input) && k < |devices|
    ensures Hit(devices[k], m * {BIT_IN}, Left(devices, input, m, k))
       <==> Intended(devices[k], input, m) || Impostor(devices, input, m, k)
  {
    var d, left := devices[k], Left(devices, input, m, k);
    if Intended(d, input, m) {
      var x :| x in m * Low(d.mask);
      forall j | 0 <= j < k && Intended(devices[j], input, m) ensures x !in devices[j].mask {
        assert x !in Low(devices[j].mask) * Low(d.mask);
      }
      assert x in d.mask * left;
    }
    if Hit(d, m * {BIT_IN}, left) && !Impostor(devices, input, m, k) {
      var x :| x in d.mask * left;
      assert BIT_IN in m ==> BIT_IN in m * {BIT_IN};
      assert x in m * Low(d.mask);
    }
  }

  lemma LeftStep(devices: seq<Device>, input: bool, m: Mask, k: nat)
    requires k < |devices|
    ensures Left(devices, input, m, k + 1) ==
      if Intended(devices[k], input, m) then Left(devices, input, m, k) - devices[k].mask else Left(devices, input, m, k)
  {
  }

  ghost predicate ExactFrom(devices: seq<Device>, input: bool, m: Mask, k: nat)
    requires k <= |devices|
  {
    forall i :: k <= i < |devices| ==>
      (i in Touched(devices, k, m * {BIT_IN}, Left(devices, input, m, k)) <==> Intended(devices[i], input, m))
  }

  lemma ImpostorIsTouched(devices: seq<Device>, input: bool, m: Mask, k: nat)
    requires SameWayDisjoint(devices) && (BIT_IN in m ==> input) && Impostor(devices, input, m, k)
    ensures !ExactFrom(devices, input, m, k)
  {
    HitIffIntendedOrImpostor(devices, input, m, k);
    assert k in Touched(devices, k, m * {BIT_IN}, Left(devices, input, m, k)) && !Intended(devices[k], input, m);
  }

  lemma TouchedNext(devices: seq<Device>, input: bool, m: Mask, k: nat)
    requires SameWayDisjoint(devices) && (BIT_IN in m ==> input) && k < |devices| && !Impostor(devices, input, m, k)
    ensures Touched(devices, k, m * {BIT_IN}, Left(devices, input, m, k)) ==
      (if Intended(devices[k], input, m) then {k} else {}) +
      Touched(devices, k + 1, m * {BIT_IN}, Left(devices, input, m, k + 1))
  {
    HitIffIntendedOrImpostor(devices, input, m, k);
    LeftStep(devices, input, m, k);
  }

  lemma ExactNext(devices: seq<Device>, input: bool, m: Mask, k: nat)
    requires SameWayDisjoint(devices) && (BIT_IN in m ==> input) && k < |devices| && !Impostor(devices, input, m, k)
    ensures ExactFrom(devices, input, m, k) <==> ExactFrom(devices, input, m, k + 1)
  {
    var here, next := Touched(devices, k, m * {BIT_IN}, Left(devices, input, m, k)), Touched(devices, k + 1, m * {BIT_IN}, Left(devices, input, m, k + 1));
    TouchedNext(devices, input, m, k);
    TouchedRange(devices, k + 1, m * {BIT_IN}, Left(devices, input, m, k + 1));
    assert forall i :: k < i < |devices| ==> (i in here <==> i in next);
    assert k in here <==> Intended(devices[k], input, m);
  }

  lemma {:induction false} ExactIffNoImpostor(devices: seq<Device>, input: bool, m: Mask, k: nat)
    requires SameWayDisjoint(devices) && (BIT_IN in m ==> input) && k <= |devices|
    ensures ExactFrom(devices, input, m, k) <==> forall i :: k <= i < |devices| ==> !Impostor(devices, input, m, i)
    decreases |devices| - k
  {
    if k < |devices| {
      ExactIffNoImpostor(devices, input, m, k + 1);
      if Impostor(devices, input, m, k) {
        ImpostorIsTouched(devices, input, m, k);
      } else {
        ExactNext(devices, input, m, k);
      }
    }
  }

  /** The first device of the other direction that a request meets is reached. */
  lemma {:induction false} FirstImpostor(devices: seq<Device>, input: bool, m: Mask, k: nat, j: nat) returns (f: nat)
    requires SameWayDisjoint(devices) && (BIT_IN in m ==> input) && k <= j && Impostor(devices, input, m, j)
    ensures Impostor(devices, input, m, f) && f in Touched(devices, k, m * {BIT_IN}, Left(devices, input, m, k))
    decreases j - k
  {
    if Impostor(devices, input, m, k) {
      HitIffIntendedOrImpostor(devices, input, m, k);
      f := k;
    } else {
      TouchedNext(devices, input, m, k);
      f := FirstImpostor(devices, input, m, k + 1, j);
    }
  }

  lemma ImpostorReached(devices: seq<Device>, input: bool, m: Mask) returns (f: nat)
    requires SameWayDisjoint(devices) && (BIT_IN in m ==> input) && !Clear(devices, input, m)
    ensures Impostor(devices, input, m, f) && f in Reached(devices, m)
  {
    var j :| 0 <= j < |devices| && Impostor(devices, input, m, j);
    assert Left(devices, input, m, 0) == Low(m);
    f := FirstImpostor(devices, input, m, 0, j);
  }

  /** A request reaches exactly the intended devices. */
  ghost predicate Exact(devices: seq<Device>, input: bool, m: Mask) {
    forall i :: 0 <= i < |devices| ==> (i in Reached(devices, m) <==> Intended(devices[i], input, m))
  }

  /** The request applies the two paths to the intended devices and leaves all others alone. */
  ghost predicate Applies(cm: Cm, input: bool, m: Mask, first: int, second: int) {
    forall i :: 0 <= i < |cm.devices| ==> AppliesTo(cm, input, m, first, second, i)
  }

  ghost predicate AppliesTo(cm: Cm, input: bool, m: Mask, first: int, second: int, i: nat)
    requires i < |cm.devices|
  {
    var cm' := ToDevices(cm, m, first, second);
    i < |cm'.devices| &&
    View(cm', i) ==
      if Intended(cm.devices[i], input, m)
      then LocalById(View(cm, i), cm.devices[i].paths, first, second) else View(cm, i)
  }

  /** Path `id` leaves a trace on every device. */
  ghost predicate Visible(devices: seq<Device>, id: int) {
    id != PATH_ON && id != PATH_OFF && forall i :: 0 <= i < |devices| ==> id in devices[i].paths
  }

  lemma AppliesToIff(cm: Cm, input: bool, m: Mask, first: int, second: int, i: nat)
    requires i < |cm.devices|
    ensures (i in Reached(cm.devices, m) <==> Intended(cm.devices[i], input, m)) ==> AppliesTo(cm, input, m, first, second, i)
    ensures Visible(cm.devices, first) && AppliesTo(cm, input, m, first, second, i) ==>
      (i in Reached(cm.devices, m) <==> Intended(cm.devices[i], input, m))
  {
    ToDevicesView(cm, m, first, second, i);
    RanById(View(cm, i), cm.devices[i].paths, first, second);
  }

  /** Where devices of one direction share no bit, a request of that direction, of whole devices or not,
      reaches exactly the intended devices if and only if it meets no device of the other direction with a
      bit that is still requested. Then its paths are applied as intended, and if a path that leaves a trace
      was applied as intended, no such device was met. */
  lemma WalkExactIff(cm: Cm, input: bool, m: Mask, first: int, second: int)
    requires SameWayDisjoint(cm.devices) && (BIT_IN in m ==> input)
    ensures Exact(cm.devices, input, m) <==> Clear(cm.devices, input, m)
    ensures Clear(cm.devices, input, m) ==> Applies(cm, input, m, first, second)
    ensures Visible(cm.devices, first) && Applies(cm, input, m, first, second) ==> Clear(cm.devices, input, m)
  {
    assert Left(cm.devices, input, m, 0) == Low(m);
    ExactIffNoImpostor(cm.devices, input, m, 0);
    forall i | 0 <= i < |cm.devices|
      ensures (i in Reached(cm.devices, m) <==> Intended(cm.devices[i], input, m)) ==> AppliesTo(cm, input, m, first, second, i)
      ensures Visible(cm.devices, first) && AppliesTo(cm, input, m, first, second, i) ==>
        (i in Reached(cm.devices, m) <==> Intended(cm.devices[i], input, m))
    {
      AppliesToIff(cm, input, m, first, second, i);
    }
  }

  lemma ClearIsExact(devices: seq<Device>, input: bool, m: Mask)
    requires SameWayDisjoint(devices) && (BIT_IN in m ==> input) && Clear(devices, input, m)
    ensures Exact(devices, input, m)
  {
    assert Left(devices, input, m, 0) == Low(m);
    ExactIffNoImpostor(devices, input, m, 0);
  }
}
