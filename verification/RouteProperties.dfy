/**
 What the route manager (configmgr/audio_config.c) guarantees over every run of opens, routes and releases:
 for any device table, and more where the requests of the run reach the devices they mean.
 */
module RouteProperties {
  import opened Basics
  import opened RouteManager
  import opened RouteDevice
  import opened RouteWalk

  datatype Op = OpOpen(s: nat) | OpRoute(s: nat, devices: Mask) | OpRelease(s: nat)

  function Perform(p: Platform, cm: Cm, op: Op): Cm
    requires op.s < |cm.streams|
  {
    match op
    case OpOpen(s) => Open(cm, s)
    case OpRoute(s, devices) => Route(p, cm, s, devices)
    case OpRelease(s) => Release(cm, s)
  }

  /** The callers' obligation: routes and releases only on open streams. */
  predicate Legal(cm: Cm, op: Op) {
    op.s < |cm.streams| && (op.OpOpen? || 0 < cm.streams[op.s].refCount)
  }

  /** A configuration as it leaves the parser: nothing open, routed or counted. */
  ghost predicate Init(cm: Cm) {
    && cm.log == []
    && (forall i :: 0 <= i < |cm.devices| ==> cm.devices[i].useCount == 0)
    && (forall s :: 0 <= s < |cm.streams| ==> cm.streams[s].refCount == 0 && cm.streams[s].current == {})
  }

  ghost predicate Run(p: Platform, states: seq<Cm>, ops: seq<Op>) {
    && |states| == |ops| + 1
    && Init(states[0])
    && forall k :: 0 <= k < |ops| ==> Legal(states[k], ops[k]) && states[k + 1] == Perform(p, states[k], ops[k])
  }

  // ---------------------------------------------------------------------------------------------
  // Any device table: streams
  // ---------------------------------------------------------------------------------------------

  predicate StreamOk(st: Stream) {
    && 0 <= st.refCount && (0 < st.refCount ==> st.refCount <= st.maxRefCount)
    && (st.refCount == 0 ==> st.current == {})
  }

  ghost predicate StreamsOk(cm: Cm) {
    forall s :: 0 <= s < |cm.streams| ==> StreamOk(cm.streams[s])
  }

  ghost predicate SameStreams(a: seq<Stream>, b: seq<Stream>) {
    |a| == |b| && forall s :: 0 <= s < |a| ==> a[s].enablePath == b[s].enablePath && a[s].disablePath == b[s].disablePath
  }

  lemma OpKeepsStreams(p: Platform, cm: Cm, op: Op)
    requires StreamsOk(cm) && Legal(cm, op)
    ensures StreamsOk(Perform(p, cm, op)) && SameStreams(Perform(p, cm, op).streams, cm.streams)
    ensures |Perform(p, cm, op).devices| == |cm.devices|
  {
    assert StreamOk(cm.streams[op.s]);
  }

  lemma {:induction false} RunStreams(p: Platform, states: seq<Cm>, ops: seq<Op>, k: nat)
    requires Run(p, states, ops) && k < |states|
    ensures StreamsOk(states[k]) && SameStreams(states[k].streams, states[0].streams)
  {
    if k > 0 {
      RunStreams(p, states, ops, k - 1);
      OpKeepsStreams(p, states[k - 1], ops[k - 1]);
    }
  }

  /** On every run over any device table, reference counts stay between zero and the stream's maximum, and a
      closed stream is connected to nothing. */
  lemma RefCountsBounded(p: Platform, states: seq<Cm>, ops: seq<Op>, k: nat, s: nat)
    requires Run(p, states, ops) && k < |states| && s < |states[k].streams|
    ensures
      var st := states[k].streams[s];
      && 0 <= st.refCount && (0 < st.refCount ==> st.refCount <= st.maxRefCount)
      && (st.refCount == 0 ==> st.current == {})
  {
    RunStreams(p, states, ops, k);
    assert StreamOk(states[k].streams[s]);
  }

  // ---------------------------------------------------------------------------------------------
  // Any device table: devices
  // ---------------------------------------------------------------------------------------------

  /** What an operation does to device `i`: connections and disconnections, in order. */
  ghost function Events(cm: Cm, op: Op, i: nat): seq<Event> {
    if op.s >= |cm.streams| || i >= |cm.devices| then []
    else
      var st := cm.streams[op.s];
      match op
      case OpOpen(s) =>
        if st.refCount < st.maxRefCount && st.refCount + 1 == 1 && i == GlobalIndex(cm.devices)
        then [Connect(st.enablePath)] else []
      case OpRoute(s, devices) =>
        if WrongDirection(st, devices) then []
        else
          (if i in Reached(cm.devices, st.current - devices) then [Disconnect(st.disablePath, false)] else []) +
          (if i in Reached(cm.devices, devices - st.current) then [Connect(st.enablePath)] else [])
      case OpRelease(s) =>
        if st.refCount - 1 != 0 then []
        else
          (if i in Reached(cm.devices, st.current) then [Disconnect(st.disablePath, true)] else []) +
          (if i == GlobalIndex(cm.devices) then [Disconnect(st.disablePath, false)] else [])
  }

  /** An optional event, and two of them. */
  lemma HappenOptional(l: Local, paths: seq<int>, c: bool, e: Event)
    ensures HappenAll(l, paths, if c then [e] else []) == if c then Happen(l, paths, e) else l
  {
    if c {
      HappenOne(l, paths, e);
    }
  }

  lemma HappenTwoOptional(l: Local, paths: seq<int>, a: bool, e: Event, b: bool, f: Event)
    ensures
      var mid := if a then Happen(l, paths, e) else l;
      HappenAll(l, paths, (if a then [e] else []) + (if b then [f] else [])) == if b then Happen(mid, paths, f) else mid
  {
    HappenTwice(l, paths, if a then [e] else [], if b then [f] else []);
    HappenOptional(l, paths, a, e);
    HappenOptional(if a then Happen(l, paths, e) else l, paths, b, f);
  }

  lemma OpenView(cm: Cm, s: nat, i: nat)
    requires s < |cm.streams| && i < |cm.devices|
    ensures SameTable(Open(cm, s).devices, cm.devices)
    ensures View(Open(cm, s), i) == HappenAll(View(cm, i), cm.devices[i].paths, Events(cm, OpOpen(s), i))
  {
    var st := cm.streams[s];
    if st.refCount < st.maxRefCount {
      var mid := cm.(streams := cm.streams[s := st.(refCount := st.refCount + 1)]);
      ToGlobalView(mid, PATH_ON, st.enablePath, i);
      HappenOne(View(cm, i), cm.devices[i].paths, Connect(st.enablePath));
    }
  }

  lemma RouteView(p: Platform, cm: Cm, s: nat, devices: Mask, i: nat)
    requires s < |cm.streams| && i < |cm.devices|
    ensures SameTable(Route(p, cm, s, devices).devices, cm.devices)
    ensures View(Route(p, cm, s, devices), i) == HappenAll(View(cm, i), cm.devices[i].paths, Events(cm, OpRoute(s, devices), i))
  {
    var st, l, paths := cm.streams[s], View(cm, i), cm.devices[i].paths;
    if !WrongDirection(st, devices) {
      var off, on := st.current - devices, devices - st.current;
      var mid := ToDevices(cm, off, st.disablePath, PATH_OFF);
      ToDevicesView(cm, off, st.disablePath, PATH_OFF, i);
      ToDevicesView(mid, on, PATH_ON, st.enablePath, i);
      SameReached(mid.devices, cm.devices, on);
      var a, b := i in Reached(cm.devices, off), i in Reached(cm.devices, on);
      HappenTwoOptional(l, paths, a, Disconnect(st.disablePath, false), b, Connect(st.enablePath));
    }
  }

  /** The last release walks the devices of the route and then the global one. */
  lemma LastReleaseView(cm: Cm, st: Stream, i: nat)
    requires i < |cm.devices|
    ensures
      var glob := ToGlobal(ToDevices(cm, st.current, PATH_OFF, st.disablePath), st.disablePath, PATH_OFF);
      var a, b := i in Reached(cm.devices, st.current), i == GlobalIndex(cm.devices);
      && SameTable(glob.devices, cm.devices)
      && View(glob, i) == HappenAll(View(cm, i), cm.devices[i].paths,
           (if a then [Disconnect(st.disablePath, true)] else []) + (if b then [Disconnect(st.disablePath, false)] else []))
  {
    var off := ToDevices(cm, st.current, PATH_OFF, st.disablePath);
    ToDevicesView(cm, st.current, PATH_OFF, st.disablePath, i);
    ToGlobalView(off, st.disablePath, PATH_OFF, i);
    SameGlobal(off.devices, cm.devices);
    var a, b := i in Reached(cm.devices, st.current), i == GlobalIndex(cm.devices);
    HappenTwoOptional(View(cm, i), cm.devices[i].paths, a, Disconnect(st.disablePath, true), b, Disconnect(st.disablePath, false));
  }

  lemma ReleaseView(cm: Cm, s: nat, i: nat)
    requires s < |cm.streams| && i < |cm.devices|
    ensures SameTable(Release(cm, s).devices, cm.devices)
    ensures View(Release(cm, s), i) == HappenAll(View(cm, i), cm.devices[i].paths, Events(cm, OpRelease(s), i))
  {
    var st := cm.streams[s];
    if st.refCount - 1 == 0 {
      LastReleaseView(cm, st, i);
    }
  }

  /** For any table, an operation does to each device what its events say. */
  lemma OpView(p: Platform, cm: Cm, op: Op, i: nat)
    requires op.s < |cm.streams| && i < |cm.devices|
    ensures SameTable(Perform(p, cm, op).devices, cm.devices)
    ensures View(Perform(p, cm, op), i) == HappenAll(View(cm, i), cm.devices[i].paths, Events(cm, op, i))
  {
    match op
    case OpOpen(s) => OpenView(cm, s, i);
    case OpRoute(s, devices) => RouteView(p, cm, s, devices, i);
    case OpRelease(s) => ReleaseView(cm, s, i);
  }

  /** The device is of the direction of the mask and shares a bit with it. */
  predicate Meant(d: Device, m: Mask) {
    (BIT_IN in d.mask <==> BIT_IN in m) && exists x :: x in d.mask && x in m && x != BIT_IN
  }

  /** A stream that is not routed yet takes any route of the direction it was configured with: where devices
      of one direction share no bit, and the route meets none of the other one, every device that the mask
      means is connected, no other device is changed, and the stream is routed to the mask. */
  lemma FirstRouteConnects(p: Platform, cm: Cm, s: nat, typ: string, out: bool, named: bool, devices: Mask, i: nat)
    requires s < |cm.streams| && cm.streams[s].current == {} && i < |cm.devices|
    requires Configured(typ, out, false, named) == Some(cm.streams[s].kind) && devices != {} && out == (BIT_IN !in devices)
    requires SameWayDisjoint(cm.devices) && Clear(cm.devices, !out, devices)
    ensures
      var cm', st := Route(p, cm, s, devices), cm.streams[s];
      && |cm'.devices| == |cm.devices| && cm'.streams == cm.streams[s := cm'.streams[s]]
      && cm'.streams[s] == st.(current := if out then devices * p.outAll else (devices * p.inAll) + {BIT_IN})
      && (Low(devices) <= (if out then p.outAll else p.inAll) ==> cm'.streams[s].current == devices)
      && View(cm', i) ==
           if Meant(cm.devices[i], devices) then Happen(View(cm, i), cm.devices[i].paths, Connect(st.enablePath)) else View(cm, i)
  {
    var st, none: Mask := cm.streams[s], {};
    RefusesIff(typ, out, false, named, st, devices);
    RouteView(p, cm, s, devices, i);
    assert none - devices == {} && devices - none == devices;
    NothingReached(cm.devices);
    ClearIsExact(cm.devices, !out, devices);
    MeantIsIntended(cm.devices[i], devices);
    HappenTwoOptional(View(cm, i), cm.devices[i].paths, false, Disconnect(st.disablePath, false),
      i in Reached(cm.devices, devices), Connect(st.enablePath));
  }

  /** A route of the other direction changes nothing. */
  lemma OtherRouteRefused(p: Platform, cm: Cm, s: nat, typ: string, out: bool, named: bool, devices: Mask)
    requires s < |cm.streams| && Configured(typ, out, false, named) == Some(cm.streams[s].kind)
    requires devices != {} && out == (BIT_IN in devices)
    ensures Route(p, cm, s, devices) == cm
  {
    RefusesIff(typ, out, false, named, cm.streams[s], devices);
  }

  lemma NothingReached(devices: seq<Device>)
    ensures Reached(devices, {}) == {}
  {
    var none: Mask := {};
    assert none * {BIT_IN} == {} && Low(none) == {};
    NothingTouched(devices, 0);
  }

  lemma {:induction false} NothingTouched(devices: seq<Device>, k: nat)
    requires k <= |devices|
    ensures Touched(devices, k, {}, {}) == {}
    decreases |devices| - k
  {
    if k < |devices| {
      var none: Mask := {};
      assert devices[k].mask * none == {};
      NothingTouched(devices, k + 1);
    }
  }

  lemma MeantIsIntended(d: Device, m: Mask)
    ensures Meant(d, m) <==> Intended(d, BIT_IN in m, m)
  {
    if Intended(d, BIT_IN in m, m) {
      var x :| x in m * Low(d.mask);
    }
    if Meant(d, m) {
      var x :| x in d.mask && x in m && x != BIT_IN;
      assert x in m * Low(d.mask);
    }
  }

  /** All that happened to device `i` in the first `k` operations. */
  ghost function History(states: seq<Cm>, ops: seq<Op>, k: nat, i: nat): seq<Event>
    requires |states| == |ops| + 1 && k <= |ops|
  {
    if k == 0 then [] else History(states, ops, k - 1, i) + Events(states[k - 1], ops[k - 1], i)
  }

  lemma {:induction false} RunView(p: Platform, states: seq<Cm>, ops: seq<Op>, k: nat, i: nat)
    requires Run(p, states, ops) && k < |states| && i < |states[0].devices|
    ensures SameTable(states[k].devices, states[0].devices)
    ensures View(states[k], i) == HappenAll(NEW, states[0].devices[i].paths, History(states, ops, k, i))
  {
    if k > 0 {
      RunView(p, states, ops, k - 1, i);
      OpView(p, states[k - 1], ops[k - 1], i);
      HappenTwice(NEW, states[0].devices[i].paths, History(states, ops, k - 1, i), Events(states[k - 1], ops[k - 1], i));
    }
  }

  /** The streams name custom paths, or none. */
  ghost predicate CustomPaths(streams: seq<Stream>) {
    forall s :: 0 <= s < |streams| ==> streams[s].enablePath != PATH_OFF && streams[s].disablePath != PATH_ON
  }

  lemma EventsCustom(cm: Cm, op: Op, i: nat, streams: seq<Stream>)
    requires SameStreams(cm.streams, streams) && CustomPaths(streams)
    ensures Custom(Events(cm, op, i))
  {
  }

  lemma CustomBoth(a: seq<Event>, b: seq<Event>)
    requires Custom(a) && Custom(b)
    ensures Custom(a + b)
  {
  }

  lemma {:induction false} HistoryCustom(p: Platform, states: seq<Cm>, ops: seq<Op>, k: nat, i: nat)
    requires Run(p, states, ops) && k < |states| && CustomPaths(states[0].streams)
    ensures Custom(History(states, ops, k, i))
  {
    if k > 0 {
      HistoryCustom(p, states, ops, k - 1, i);
      RunStreams(p, states, ops, k - 1);
      EventsCustom(states[k - 1], ops[k - 1], i, states[0].streams);
      CustomBoth(History(states, ops, k - 1, i), Events(states[k - 1], ops[k - 1], i));
    }
  }

  /** On every run over any device table, whatever paths a device defines, in terms of the connections and
      disconnections that reach the device, meant for it or not: its use count is the number of connections,
      if it defines "on", less the number of disconnections, if it defines "off". Its "on" runs exactly when
      the first of them arrives and its "off" exactly when the last one leaves, if and only if it defines both
      or neither, or only "on" and none arrives once all have left, or only "off" and none leaves while
      others stay. */
  lemma OnOffFollowsIff(p: Platform, states: seq<Cm>, ops: seq<Op>, k: nat, i: nat)
    requires Run(p, states, ops) && k < |states| && i < |states[0].devices| && CustomPaths(states[0].streams)
    ensures
      var paths, evs := states[0].devices[i].paths, History(states, ops, k, i);
      && |states[k].devices| == |states[0].devices|
      && PathsOf(states[k].log, i) == HappenAll(NEW, paths, evs).done
      && states[k].devices[i].useCount ==
           (if PATH_ON in paths then Connects(evs) else 0) - (if PATH_OFF in paths then Disconnects(evs) else 0)
      && (FollowsRule(paths, evs) <==>
            && (PATH_ON in paths && PATH_OFF !in paths ==> forall j :: 0 <= j < |evs| ==> !ReconnectAt(evs, j))
            && (PATH_OFF in paths && PATH_ON !in paths ==> forall j :: 0 <= j < |evs| ==> !SharedAt(evs, j)))
  {
    var paths, evs := states[0].devices[i].paths, History(states, ops, k, i);
    RunView(p, states, ops, k, i);
    HistoryCustom(p, states, ops, k, i);
    CountIsExpected(paths, evs);
    FollowsRuleIff(paths, evs);
  }

  // ---------------------------------------------------------------------------------------------
  // Where requests reach what they mean
  // ---------------------------------------------------------------------------------------------

  function All(p: Platform, input: bool): Mask { if input then p.inAll else p.outAll }

  /** A route for a stream of the given direction: if it is not empty it carries the direction bit of that
      direction, and it names devices of that direction whole. Other bits are free. */
  ghost predicate RouteOk(p: Platform, devices: seq<Device>, input: bool, m: Mask) {
    && (BIT_IN in m ==> input)
    && (m != {} && input ==> BIT_IN in m)
    && forall i :: 0 <= i < |devices| && Intended(devices[i], input, m) ==>
         Low(devices[i].mask) <= m && Low(devices[i].mask) <= All(p, input)
  }

  ghost predicate RoutesOk(p: Platform, cm: Cm) {
    forall s :: 0 <= s < |cm.streams| ==> RouteOk(p, cm.devices, cm.streams[s].kind.IsInput(), cm.streams[s].current)
  }

  /** The operation names whole devices, and the masks it walks meet no device of the other direction. */
  ghost predicate Meets(p: Platform, cm: Cm, op: Op) {
    op.s < |cm.streams| &&
    var st := cm.streams[op.s];
    var input := st.kind.IsInput();
    match op
    case OpOpen(s) => true
    case OpRoute(s, devices) =>
      WrongDirection(st, devices) ||
      (&& RouteOk(p, cm.devices, input, devices)
       && Clear(cm.devices, input, st.current - devices)
       && Clear(cm.devices, input, devices - st.current))
    case OpRelease(s) => st.refCount > 1 || Clear(cm.devices, input, st.current)
  }

  /** The streams connected to a device, and the open streams. */
  ghost function Users(streams: seq<Stream>, d: Device): set<nat> {
    set s: nat | s < |streams| && Intended(d, streams[s].kind.IsInput(), streams[s].current)
  }

  ghost function Opened(streams: seq<Stream>): set<nat> {
    set s: nat | s < |streams| && 0 < streams[s].refCount
  }

  /** How many streams should use device `i`: for the first global device every open one, for a further
      global device none. */
  ghost function Count(cm: Cm, i: nat): nat
    requires i < |cm.devices|
  {
    if cm.devices[i].mask != {} then |Users(cm.streams, cm.devices[i])|
    else if i == GlobalIndex(cm.devices) then |Opened(cm.streams)| else 0
  }

  lemma CardChange(a: set<nat>, b: set<nat>, s: nat)
    requires a - {s} == b - {s}
    ensures |b| == |a| + (if s in b then 1 else 0) - (if s in a then 1 else 0)
    ensures s in a ==> 0 < |a|
  {
    var c := a - {s};
    assert a == if s in a then c + {s} else c;
    assert b == if s in b then c + {s} else c;
  }

  /** One stream changes: the users of a device and the open streams change by that stream only. */
  lemma UsersChange(streams: seq<Stream>, s: nat, st: Stream, d: Device, d': Device)
    requires s < |streams| && d'.mask == d.mask
    ensures |Users(streams[s := st], d')| == |Users(streams, d)|
      + (if Intended(d, st.kind.IsInput(), st.current) then 1 else 0)
      - (if Intended(d, streams[s].kind.IsInput(), streams[s].current) then 1 else 0)
    ensures Intended(d, streams[s].kind.IsInput(), streams[s].current) ==> 0 < |Users(streams, d)|
  {
    CardChange(Users(streams, d), Users(streams[s := st], d'), s);
  }

  lemma OpenedChange(streams: seq<Stream>, s: nat, st: Stream)
    requires s < |streams|
    ensures |Opened(streams[s := st])| ==
      |Opened(streams)| + (if 0 < st.refCount then 1 else 0) - (if 0 < streams[s].refCount then 1 else 0)
    ensures 0 < streams[s].refCount ==> 0 < |Opened(streams)|
  {
    CardChange(Opened(streams), Opened(streams[s := st]), s);
  }

  /** A whole device is in the part of one route that another lacks exactly when the one contains it and
      the other does not. */
  lemma IntendedDifference(p: Platform, devices: seq<Device>, input: bool, a: Mask, b: Mask, i: nat)
    requires RouteOk(p, devices, input, a) && RouteOk(p, devices, input, b) && i < |devices|
    ensures Intended(devices[i], input, a - b) <==> Intended(devices[i], input, a) && !Intended(devices[i], input, b)
  {
    var low := Low(devices[i].mask);
    if Intended(devices[i], input, a - b) {
      var x :| x in (a - b) * low;
      assert x in a * low && x in low && x !in b;
    }
    if Intended(devices[i], input, a) && !Intended(devices[i], input, b) {
      var x :| x in a * low;
      assert x !in b * low;
      assert x in (a - b) * low;
    }
  }

  lemma MaskedIntended(p: Platform, devices: seq<Device>, input: bool, m: Mask, i: nat)
    requires RouteOk(p, devices, input, m) && i < |devices|
    ensures Intended(devices[i], input, Masked(p, m)) <==> Intended(devices[i], input, m)
  {
    var low := Low(devices[i].mask);
    if x :| x in Masked(p, m) * low {
      assert x in m * low;
    }
    if IsInput(devices[i]) == input {
      if x :| x in m * low {
        assert Intended(devices[i], input, m);
        assert x in Masked(p, m) * low;
      }
    }
  }

  lemma MaskedOk(p: Platform, devices: seq<Device>, input: bool, m: Mask)
    requires RouteOk(p, devices, input, m)
    ensures RouteOk(p, devices, input, Masked(p, m))
  {
    forall i | 0 <= i < |devices| && Intended(devices[i], input, Masked(p, m))
      ensures Low(devices[i].mask) <= Masked(p, m) && Low(devices[i].mask) <= All(p, input)
    {
      MaskedIntended(p, devices, input, m, i);
      assert Low(devices[i].mask) <= m && Low(devices[i].mask) <= All(p, input);
    }
  }

  lemma SameRouteOk(p: Platform, a: seq<Device>, b: seq<Device>, input: bool, m: Mask)
    requires SameTable(a, b) && RouteOk(p, b, input, m)
    ensures RouteOk(p, a, input, m)
  {
    forall i | 0 <= i < |a| && Intended(a[i], input, m) ensures Low(a[i].mask) <= m && Low(a[i].mask) <= All(p, input) {
      assert Intended(b[i], input, m);
    }
  }

  lemma EmptyRoute(p: Platform, devices: seq<Device>, input: bool)
    ensures RouteOk(p, devices, input, {})
  {
    assert forall mask: Mask :: !Includes({}, mask);
  }

  /** The stream an operation changes, and how. */
  function NewStream(p: Platform, cm: Cm, op: Op): Stream
    requires op.s < |cm.streams|
  {
    var st := cm.streams[op.s];
    match op
    case OpOpen(s) => if st.refCount < st.maxRefCount then st.(refCount := st.refCount + 1) else st
    case OpRoute(s, devices) => if WrongDirection(st, devices) then st else st.(current := Masked(p, devices))
    case OpRelease(s) => if st.refCount - 1 == 0 then st.(refCount := 0, current := {}) else st.(refCount := st.refCount - 1)
  }

  lemma OpStreams(p: Platform, cm: Cm, op: Op)
    requires op.s < |cm.streams|
    ensures Perform(p, cm, op).streams == cm.streams[op.s := NewStream(p, cm, op)]
  {
  }

  lemma NewRouteOk(p: Platform, cm: Cm, op: Op)
    requires RoutesOk(p, cm) && Legal(cm, op) && NamesWhole(p, cm, op)
    ensures var st := NewStream(p, cm, op); RouteOk(p, cm.devices, st.kind.IsInput(), st.current)
  {
    var st := cm.streams[op.s];
    assert RouteOk(p, cm.devices, st.kind.IsInput(), st.current);
    match op
    case OpOpen(s) =>
    case OpRoute(s, devices) =>
      if !WrongDirection(st, devices) {
        MaskedOk(p, cm.devices, st.kind.IsInput(), devices);
      }
    case OpRelease(s) => EmptyRoute(p, cm.devices, st.kind.IsInput());
  }

  lemma OpKeepsRoutes(p: Platform, cm: Cm, op: Op)
    requires RoutesOk(p, cm) && Legal(cm, op) && NamesWhole(p, cm, op) && SameTable(Perform(p, cm, op).devices, cm.devices)
    ensures RoutesOk(p, Perform(p, cm, op))
  {
    var cm' := Perform(p, cm, op);
    OpStreams(p, cm, op);
    NewRouteOk(p, cm, op);
    forall s | 0 <= s < |cm'.streams| ensures RouteOk(p, cm'.devices, cm'.streams[s].kind.IsInput(), cm'.streams[s].current) {
      assert s != op.s ==> cm'.streams[s] == cm.streams[s];
      SameRouteOk(p, cm'.devices, cm.devices, cm'.streams[s].kind.IsInput(), cm'.streams[s].current);
    }
  }

  /** The events take the number of users from `n` to `n'`, one step at most. */
  ghost predicate Moves(evs: seq<Event>, n: nat, n': nat) {
    || (evs == [] && n' == n)
    || (|evs| == 1 && evs[0].Connect? && n' == n + 1)
    || (|evs| == 1 && evs[0].Disconnect? && 0 < n && n' == n - 1)
  }

  /** The number of users after the operation, from the changed stream. */
  lemma CountAfter(p: Platform, cm: Cm, op: Op, i: nat)
    requires op.s < |cm.streams| && i < |cm.devices| && SameTable(Perform(p, cm, op).devices, cm.devices)
    ensures
      var d, st, st' := cm.devices[i], cm.streams[op.s], NewStream(p, cm, op);
      && (d.mask != {} ==>
            Count(Perform(p, cm, op), i) == Count(cm, i)
              + (if Intended(d, st'.kind.IsInput(), st'.current) then 1 else 0)
              - (if Intended(d, st.kind.IsInput(), st.current) then 1 else 0))
      && (d.mask != {} && Intended(d, st.kind.IsInput(), st.current) ==> 0 < Count(cm, i))
      && (i == GlobalIndex(cm.devices) ==>
            && d.mask == {}
            && Count(Perform(p, cm, op), i) == Count(cm, i)
                 + (if 0 < st'.refCount then 1 else 0) - (if 0 < st.refCount then 1 else 0))
      && (i == GlobalIndex(cm.devices) && 0 < st.refCount ==> 0 < Count(cm, i))
      && (d.mask == {} && i != GlobalIndex(cm.devices) ==> Count(Perform(p, cm, op), i) == Count(cm, i))
  {
    OpStreams(p, cm, op);
    SameGlobal(Perform(p, cm, op).devices, cm.devices);
    UsersChange(cm.streams, op.s, NewStream(p, cm, op), cm.devices[i], Perform(p, cm, op).devices[i]);
    OpenedChange(cm.streams, op.s, NewStream(p, cm, op));
  }

  lemma NotReached(devices: seq<Device>, m: Mask, i: nat)
    requires i < |devices| && devices[i].mask == {}
    ensures i !in Reached(devices, m)
  {
    TouchedRange(devices, 0, m * {BIT_IN}, Low(m));
  }

  /** Where the masks are clear, a route disconnects exactly the devices that leave it and connects exactly
      those that join it. */
  lemma RouteReaches(p: Platform, cm: Cm, s: nat, devices: Mask, i: nat)
    requires SameWayDisjoint(cm.devices) && RoutesOk(p, cm) && i < |cm.devices|
    requires s < |cm.streams| && Meets(p, cm, OpRoute(s, devices)) && !WrongDirection(cm.streams[s], devices)
    ensures
      var st, d := cm.streams[s], cm.devices[i];
      var was, now := Intended(d, st.kind.IsInput(), st.current), Intended(d, st.kind.IsInput(), Masked(p, devices));
      && (i in Reached(cm.devices, st.current - devices) <==> was && !now)
      && (i in Reached(cm.devices, devices - st.current) <==> now && !was)
  {
    var st := cm.streams[s];
    var input := st.kind.IsInput();
    assert RouteOk(p, cm.devices, input, st.current);
    ClearIsExact(cm.devices, input, st.current - devices);
    ClearIsExact(cm.devices, input, devices - st.current);
    IntendedDifference(p, cm.devices, input, st.current, devices, i);
    IntendedDifference(p, cm.devices, input, devices, st.current, i);
    MaskedIntended(p, cm.devices, input, devices, i);
  }

  /** Where the masks are clear, an operation's events on a device are exactly the change of its users. */
  lemma RouteMoves(p: Platform, cm: Cm, s: nat, devices: Mask, i: nat)
    requires SameWayDisjoint(cm.devices) && RoutesOk(p, cm) && i < |cm.devices|
    requires Legal(cm, OpRoute(s, devices)) && Meets(p, cm, OpRoute(s, devices))
    requires SameTable(Perform(p, cm, OpRoute(s, devices)).devices, cm.devices)
    ensures Moves(Events(cm, OpRoute(s, devices), i), Count(cm, i), Count(Perform(p, cm, OpRoute(s, devices)), i))
  {
    var st := cm.streams[s];
    CountAfter(p, cm, OpRoute(s, devices), i);
    if !WrongDirection(st, devices) {
      RouteReaches(p, cm, s, devices, i);
      if cm.devices[i].mask == {} {
        NotReached(cm.devices, st.current - devices, i);
        NotReached(cm.devices, devices - st.current, i);
      }
    }
  }

  lemma ReleaseMoves(p: Platform, cm: Cm, s: nat, i: nat)
    requires SameWayDisjoint(cm.devices) && RoutesOk(p, cm) && StreamsOk(cm) && i < |cm.devices|
    requires Legal(cm, OpRelease(s)) && Meets(p, cm, OpRelease(s))
    requires SameTable(Perform(p, cm, OpRelease(s)).devices, cm.devices)
    ensures Moves(Events(cm, OpRelease(s), i), Count(cm, i), Count(Perform(p, cm, OpRelease(s)), i))
  {
    var st, d := cm.streams[s], cm.devices[i];
    CountAfter(p, cm, OpRelease(s), i);
    if st.refCount - 1 == 0 {
      assert RouteOk(p, cm.devices, st.kind.IsInput(), st.current);
      ClearIsExact(cm.devices, st.kind.IsInput(), st.current);
      if d.mask == {} {
        NotReached(cm.devices, st.current, i);
      }
    }
  }

  lemma OpMoves(p: Platform, cm: Cm, op: Op, i: nat)
    requires SameWayDisjoint(cm.devices) && RoutesOk(p, cm) && StreamsOk(cm) && i < |cm.devices|
    requires Legal(cm, op) && Meets(p, cm, op) && SameTable(Perform(p, cm, op).devices, cm.devices)
    ensures Moves(Events(cm, op, i), Count(cm, i), Count(Perform(p, cm, op), i))
  {
    match op
    case OpOpen(s) =>
      CountAfter(p, cm, op, i);
      assert StreamOk(cm.streams[s]);
    case OpRoute(s, devices) => RouteMoves(p, cm, s, devices, i);
    case OpRelease(s) => ReleaseMoves(p, cm, s, i);
  }

  /** A route names whole devices of the stream's direction. */
  ghost predicate NamesWhole(p: Platform, cm: Cm, op: Op) {
    op.s < |cm.streams| &&
    (op.OpRoute? ==>
       var st := cm.streams[op.s];
       WrongDirection(st, op.devices) || RouteOk(p, cm.devices, st.kind.IsInput(), op.devices))
  }

  /** Every device is changed by exactly the change of its users. */
  ghost predicate AllMove(p: Platform, cm: Cm, op: Op)
    requires op.s < |cm.streams|
  {
    |Perform(p, cm, op).devices| == |cm.devices| &&
    forall i :: 0 <= i < |cm.devices| ==> Moves(Events(cm, op, i), Count(cm, i), Count(Perform(p, cm, op), i))
  }

  lemma OpTable(p: Platform, cm: Cm, op: Op)
    requires op.s < |cm.streams|
    ensures SameTable(Perform(p, cm, op).devices, cm.devices)
  {
    if cm.devices != [] {
      OpView(p, cm, op, 0);
    } else {
      OpLength(p, cm, op);
    }
  }

  lemma OpLength(p: Platform, cm: Cm, op: Op)
    requires op.s < |cm.streams|
    ensures |Perform(p, cm, op).devices| == |cm.devices|
  {
  }

  /** A device of the other direction that is reached is changed although its users are the same. */
  lemma ImpostorDoesNotMove(p: Platform, cm: Cm, op: Op, f: nat)
    requires op.s < |cm.streams| && f < |cm.devices| && cm.devices[f].mask != {}
    requires IsInput(cm.devices[f]) != cm.streams[op.s].kind.IsInput() && Events(cm, op, f) != []
    requires SameTable(Perform(p, cm, op).devices, cm.devices)
    ensures !Moves(Events(cm, op, f), Count(cm, f), Count(Perform(p, cm, op), f))
  {
    CountAfter(p, cm, op, f);
  }

  lemma RouteMeetsIff(p: Platform, cm: Cm, op: Op)
    requires SameWayDisjoint(cm.devices) && RoutesOk(p, cm) && Legal(cm, op) && NamesWhole(p, cm, op)
    requires op.OpRoute? && AllMove(p, cm, op) && SameTable(Perform(p, cm, op).devices, cm.devices)
    ensures Meets(p, cm, op)
  {
    var st := cm.streams[op.s];
    var input := st.kind.IsInput();
    assert RouteOk(p, cm.devices, input, st.current);
    if !WrongDirection(st, op.devices) {
      var off, on := st.current - op.devices, op.devices - st.current;
      if !Clear(cm.devices, input, off) {
        var f := ImpostorReached(cm.devices, input, off);
        ImpostorDoesNotMove(p, cm, op, f);
      }
      if !Clear(cm.devices, input, on) {
        var f := ImpostorReached(cm.devices, input, on);
        ImpostorDoesNotMove(p, cm, op, f);
      }
    }
  }

  lemma ReleaseMeetsIff(p: Platform, cm: Cm, op: Op)
    requires SameWayDisjoint(cm.devices) && RoutesOk(p, cm) && Legal(cm, op)
    requires op.OpRelease? && AllMove(p, cm, op) && SameTable(Perform(p, cm, op).devices, cm.devices)
    ensures Meets(p, cm, op)
  {
    var st := cm.streams[op.s];
    assert RouteOk(p, cm.devices, st.kind.IsInput(), st.current);
    if st.refCount == 1 && !Clear(cm.devices, st.kind.IsInput(), st.current) {
      var f := ImpostorReached(cm.devices, st.kind.IsInput(), st.current);
      ImpostorDoesNotMove(p, cm, op, f);
    }
  }

  /** An operation changes every device by exactly the change of its users if and only if the masks it walks
      meet no device of the other direction. */
  lemma OpMovesIff(p: Platform, cm: Cm, op: Op)
    requires SameWayDisjoint(cm.devices) && RoutesOk(p, cm) && StreamsOk(cm) && Legal(cm, op) && NamesWhole(p, cm, op)
    ensures AllMove(p, cm, op) <==> Meets(p, cm, op)
  {
    OpTable(p, cm, op);
    if Meets(p, cm, op) {
      forall i | 0 <= i < |cm.devices| ensures Moves(Events(cm, op, i), Count(cm, i), Count(Perform(p, cm, op), i)) {
        OpMoves(p, cm, op, i);
      }
    }
    if AllMove(p, cm, op) {
      match op
      case OpOpen(s) =>
      case OpRoute(s, devices) => RouteMeetsIff(p, cm, op);
      case OpRelease(s) => ReleaseMeetsIff(p, cm, op);
    }
  }

  /** A run whose routes name whole devices, on a table where devices of one direction share no bit. */
  ghost predicate WholeRun(p: Platform, states: seq<Cm>, ops: seq<Op>) {
    && Run(p, states, ops) && SameWayDisjoint(states[0].devices)
    && forall k :: 0 <= k < |ops| ==> NamesWhole(p, states[k], ops[k])
  }

  lemma {:induction false} WholeRunInv(p: Platform, states: seq<Cm>, ops: seq<Op>, k: nat)
    requires WholeRun(p, states, ops) && k < |states|
    ensures SameTable(states[k].devices, states[0].devices) && RoutesOk(p, states[k]) && StreamsOk(states[k])
    ensures SameWayDisjoint(states[k].devices)
  {
    if k == 0 {
      InitRoutes(p, states[0]);
    } else {
      WholeRunInv(p, states, ops, k - 1);
      OpTable(p, states[k - 1], ops[k - 1]);
      OpKeepsRoutes(p, states[k - 1], ops[k - 1]);
    }
    RunStreams(p, states, ops, k);
    SameWaySame(states[k].devices, states[0].devices);
  }

  /** On every such run, each operation changes each device by exactly the change of its users if and only if
      no operation meets a device of the other direction. */
  lemma RunMovesIff(p: Platform, states: seq<Cm>, ops: seq<Op>)
    requires WholeRun(p, states, ops)
    ensures (forall k :: 0 <= k < |ops| ==> ops[k].s < |states[k].streams| && AllMove(p, states[k], ops[k]))
       <==> MeetingRun(p, states, ops)
  {
    forall k | 0 <= k < |ops|
      ensures ops[k].s < |states[k].streams| && (AllMove(p, states[k], ops[k]) <==> Meets(p, states[k], ops[k]))
    {
      WholeRunInv(p, states, ops, k);
      OpMovesIff(p, states[k], ops[k]);
    }
  }

  /** Every operation of the run meets only what it means. */
  ghost predicate MeetingRun(p: Platform, states: seq<Cm>, ops: seq<Op>) {
    && Run(p, states, ops) && SameWayDisjoint(states[0].devices)
    && forall k :: 0 <= k < |ops| ==> Meets(p, states[k], ops[k])
  }

  lemma MovesInUse(h: seq<Event>, evs: seq<Event>, n: nat, n': nat)
    requires Moves(evs, n, n') && InUse(h) == n
    ensures InUse(h + evs) == n'
  {
    CountsAdd(h, evs);
    if evs != [] {
      assert evs[..0] == [];
      assert Connects(evs[..0]) == 0 && Disconnects(evs[..0]) == 0;
    }
  }

  lemma MovesLocal(l: Local, paths: seq<int>, evs: seq<Event>, n: nat, n': nat)
    requires Moves(evs, n, n') && Custom(evs) && Tracked(paths) && LocalOk(l, n)
    ensures LocalOk(HappenAll(l, paths, evs), n')
  {
    if evs != [] {
      assert evs == [evs[0]] && CustomEvent(evs[0]);
      HappenOne(l, paths, evs[0]);
      HappenKeepsLocal(l, n, paths, evs[0]);
    }
  }

  lemma InitCount(cm: Cm, i: nat)
    requires Init(cm) && i < |cm.devices|
    ensures Count(cm, i) == 0
  {
    assert forall mask: Mask :: !Includes({}, mask);
    assert Users(cm.streams, cm.devices[i]) == {} && Opened(cm.streams) == {};
  }

  lemma InitRoutes(p: Platform, cm: Cm)
    requires Init(cm)
    ensures RoutesOk(p, cm)
  {
    forall s | 0 <= s < |cm.streams| ensures RouteOk(p, cm.devices, cm.streams[s].kind.IsInput(), cm.streams[s].current) {
      EmptyRoute(p, cm.devices, cm.streams[s].kind.IsInput());
    }
  }

  lemma {:induction false} MeetingRunInv(p: Platform, states: seq<Cm>, ops: seq<Op>, k: nat, i: nat)
    requires MeetingRun(p, states, ops) && k < |states| && i < |states[0].devices|
    ensures SameTable(states[k].devices, states[0].devices) && RoutesOk(p, states[k])
    ensures InUse(History(states, ops, k, i)) == Count(states[k], i)
    ensures Tracked(states[0].devices[i].paths) && CustomPaths(states[0].streams) ==>
      LocalOk(View(states[k], i), Count(states[k], i))
  {
    if k == 0 {
      InitCount(states[0], i);
      InitRoutes(p, states[0]);
    } else {
      MeetingRunInv(p, states, ops, k - 1, i);
      MeetingStep(p, states, ops, k - 1, i);
    }
  }

  lemma SameWaySame(a: seq<Device>, b: seq<Device>)
    requires SameTable(a, b) && SameWayDisjoint(b)
    ensures SameWayDisjoint(a)
  {
  }

  lemma MeetingStep(p: Platform, states: seq<Cm>, ops: seq<Op>, k: nat, i: nat)
    requires MeetingRun(p, states, ops) && k < |ops| && i < |states[0].devices|
    requires SameTable(states[k].devices, states[0].devices) && RoutesOk(p, states[k])
    requires InUse(History(states, ops, k, i)) == Count(states[k], i)
    requires Tracked(states[0].devices[i].paths) && CustomPaths(states[0].streams) ==>
      LocalOk(View(states[k], i), Count(states[k], i))
    ensures SameTable(states[k + 1].devices, states[0].devices) && RoutesOk(p, states[k + 1])
    ensures InUse(History(states, ops, k + 1, i)) == Count(states[k + 1], i)
    ensures Tracked(states[0].devices[i].paths) && CustomPaths(states[0].streams) ==>
      LocalOk(View(states[k + 1], i), Count(states[k + 1], i))
  {
    var cm, op := states[k], ops[k];
    var evs, n, n' := Events(cm, op, i), Count(cm, i), Count(states[k + 1], i);
    OpView(p, cm, op, i);
    SameWaySame(cm.devices, states[0].devices);
    RunStreams(p, states, ops, k);
    OpKeepsRoutes(p, cm, op);
    OpMoves(p, cm, op, i);
    MovesInUse(History(states, ops, k, i), evs, n, n');
    if Tracked(states[0].devices[i].paths) && CustomPaths(states[0].streams) {
      EventsCustom(cm, op, i, states[0].streams);
      MovesLocal(View(cm, i), cm.devices[i].paths, evs, n, n');
    }
  }

  /** On every run whose requests meet only what they mean, for every device and whatever paths it defines:
      connections less disconnections are the streams connected to it, for the first global device the open
      streams. If it defines "on" and "off", that is its use count, the two have run in strict alternation
      and it is powered exactly while it is in use. */
  lemma UseCountsAreExact(p: Platform, states: seq<Cm>, ops: seq<Op>, k: nat, i: nat)
    requires MeetingRun(p, states, ops) && k < |states| && i < |states[0].devices|
    ensures |states[k].devices| == |states[0].devices|
    ensures
      var cm := states[k];
      var d, done := cm.devices[i], PathsOf(cm.log, i);
      && (d.mask != {} ==> InUse(History(states, ops, k, i)) == |Users(cm.streams, d)|)
      && (i == GlobalIndex(cm.devices) ==> InUse(History(states, ops, k, i)) == |Opened(cm.streams)|)
      && (Tracked(d.paths) && CustomPaths(states[0].streams) ==>
            && d.useCount == InUse(History(states, ops, k, i))
            && Alternates(done) && (Powered(done) <==> 0 < d.useCount))
  {
    MeetingRunInv(p, states, ops, k, i);
  }

  // ---------------------------------------------------------------------------------------------
  // The documented rule on streams
  // ---------------------------------------------------------------------------------------------

  /** Path `id` ran between two records of a device. */
  ghost predicate RanBetween(before: seq<int>, after: seq<int>, id: int) {
    before <= after && id in after[|before|..]
  }

  /** "on" ran exactly if it is defined and the device got its first user, and "off" exactly if it is defined
      and the device lost its last user. */
  ghost predicate RuleHolds(paths: seq<int>, before: seq<int>, after: seq<int>, n: nat, n': nat) {
    && (RanBetween(before, after, PATH_ON) <==> PATH_ON in paths && n == 0 && n' == 1)
    && (RanBetween(before, after, PATH_OFF) <==> PATH_OFF in paths && n == 1 && n' == 0)
  }

  /** The rule in operation `k` of a run. */
  ghost predicate UsersRuleAt(states: seq<Cm>, k: nat, i: nat)
    requires k + 1 < |states| && i < |states[k].devices| && i < |states[k + 1].devices|
  {
    RuleHolds(states[k].devices[i].paths, PathsOf(states[k].log, i), PathsOf(states[k + 1].log, i),
      Count(states[k], i), Count(states[k + 1], i))
  }

  ghost predicate UsedAt(states: seq<Cm>, j: nat, i: nat)
    requires j < |states|
  {
    i < |states[j].devices| && Count(states[j], i) > 0
  }

  /** A device that has had users before gets a first user again. */
  ghost predicate FirstUserAgain(states: seq<Cm>, k: nat, i: nat)
    requires k + 1 < |states| && i < |states[k].devices| && i < |states[k + 1].devices|
  {
    Count(states[k], i) == 0 && Count(states[k + 1], i) == 1 && exists j :: 0 <= j < k && UsedAt(states, j, i)
  }

  ghost predicate UsedUpTo(states: seq<Cm>, k: nat, i: nat)
    requires k < |states|
  {
    exists j :: 0 <= j <= k && UsedAt(states, j, i)
  }

  lemma UsedMore(states: seq<Cm>, k: nat, i: nat)
    requires 0 < k < |states|
    ensures UsedUpTo(states, k, i) <==> UsedUpTo(states, k - 1, i) || UsedAt(states, k, i)
  {
    if UsedUpTo(states, k, i) && !UsedAt(states, k, i) {
      var j :| 0 <= j <= k && UsedAt(states, j, i);
      assert j <= k - 1;
    }
  }

  lemma ConnectedNext(p: Platform, states: seq<Cm>, ops: seq<Op>, k: nat, i: nat)
    requires MeetingRun(p, states, ops) && 0 < k < |states| && i < |states[0].devices|
    ensures Connects(History(states, ops, k, i)) > 0
       <==> Connects(History(states, ops, k - 1, i)) > 0 || UsedAt(states, k, i)
  {
    CountsAdd(History(states, ops, k - 1, i), Events(states[k - 1], ops[k - 1], i));
    OneEvent(p, states, ops, k - 1, i);
  }

  /** A device was connected before if and only if it had users before. */
  lemma {:induction false} ConnectedIffUsed(p: Platform, states: seq<Cm>, ops: seq<Op>, k: nat, i: nat)
    requires MeetingRun(p, states, ops) && k < |states| && i < |states[0].devices|
    ensures Connects(History(states, ops, k, i)) > 0 <==> UsedUpTo(states, k, i)
  {
    if k == 0 {
      NeverUsedAtStart(p, states, ops, i);
    } else {
      ConnectedIffUsed(p, states, ops, k - 1, i);
      ConnectedNext(p, states, ops, k, i);
      UsedMore(states, k, i);
    }
  }

  lemma NeverUsedAtStart(p: Platform, states: seq<Cm>, ops: seq<Op>, i: nat)
    requires MeetingRun(p, states, ops) && i < |states[0].devices|
    ensures !UsedUpTo(states, 0, i)
  {
    MeetingRunInv(p, states, ops, 0, i);
  }

  /** A connection in the next operation leaves the device in use. */
  lemma OneEvent(p: Platform, states: seq<Cm>, ops: seq<Op>, k: nat, i: nat)
    requires MeetingRun(p, states, ops) && k < |ops| && i < |states[0].devices|
    ensures i < |states[k + 1].devices|
    ensures Connects(Events(states[k], ops[k], i)) > 0 ==> Count(states[k + 1], i) > 0
    ensures Count(states[k + 1], i) > 0 ==> Connects(History(states, ops, k + 1, i)) > 0
  {
    var evs := Events(states[k], ops[k], i);
    StepMoves(p, states, ops, k, i);
    MeetingRunInv(p, states, ops, k + 1, i);
    if evs != [] {
      assert evs[..0] == [] && Connects(evs[..0]) == 0;
    }
  }

  lemma StepMoves(p: Platform, states: seq<Cm>, ops: seq<Op>, k: nat, i: nat)
    requires MeetingRun(p, states, ops) && k < |ops| && i < |states[0].devices|
    ensures i < |states[k].devices| && i < |states[k + 1].devices|
    ensures Moves(Events(states[k], ops[k], i), Count(states[k], i), Count(states[k + 1], i))
  {
    MeetingRunInv(p, states, ops, k, i);
    RunStreams(p, states, ops, k);
    SameWaySame(states[k].devices, states[0].devices);
    OpTable(p, states[k], ops[k]);
    OpMoves(p, states[k], ops[k], i);
  }

  /** A device loses one of several users. */
  ghost predicate LosesOneOfMany(states: seq<Cm>, k: nat, i: nat)
    requires k + 1 < |states| && i < |states[k].devices| && i < |states[k + 1].devices|
  {
    Count(states[k], i) > 1 && Count(states[k + 1], i) == Count(states[k], i) - 1
  }

  /** No missing label shows: with "on" alone no first user comes again, with "off" alone none of several
      users leaves. */
  predicate NotMissed(paths: seq<int>, n: nat, n': nat, usedBefore: bool) {
    && (PATH_ON in paths && PATH_OFF !in paths ==> !(n == 0 && n' == 1 && usedBefore))
    && (PATH_OFF in paths && PATH_ON !in paths ==> !(n > 1 && n' == n - 1))
  }

  /** The rule for the events that take the users from `n` to `n'`, on a device with this use count. */
  lemma RuleForEvents(l: Local, paths: seq<int>, evs: seq<Event>, n: nat, n': nat, connects: nat, disconnects: nat)
    requires Moves(evs, n, n') && Custom(evs) && n == connects - disconnects
    requires l.useCount == (if PATH_ON in paths then connects else 0) - (if PATH_OFF in paths then disconnects else 0)
    ensures RuleHolds(paths, l.done, HappenAll(l, paths, evs).done, n, n') <==> NotMissed(paths, n, n', connects > 0)
  {
    if evs != [] {
      assert evs == [evs[0]] && CustomEvent(evs[0]);
      HappenOne(l, paths, evs[0]);
      RunsOnOff(l, paths, evs[0]);
    }
  }

  lemma UsersRuleAtIff(p: Platform, states: seq<Cm>, ops: seq<Op>, k: nat, i: nat)
    requires MeetingRun(p, states, ops) && k < |ops| && i < |states[0].devices| && CustomPaths(states[0].streams)
    ensures |states[k].devices| == |states[k + 1].devices| == |states[0].devices|
    ensures
      var paths := states[0].devices[i].paths;
      UsersRuleAt(states, k, i) <==>
        && (PATH_ON in paths && PATH_OFF !in paths ==> !FirstUserAgain(states, k, i))
        && (PATH_OFF in paths && PATH_ON !in paths ==> !LosesOneOfMany(states, k, i))
  {
    var h, evs := History(states, ops, k, i), Events(states[k], ops[k], i);
    var l, paths, n, n' := RuleFacts(p, states, ops, k, i);
    RuleForEvents(l, paths, evs, n, n', Connects(h), Disconnects(h));
  }

  lemma RuleFacts(p: Platform, states: seq<Cm>, ops: seq<Op>, k: nat, i: nat)
    returns (l: Local, paths: seq<int>, n: nat, n': nat)
    requires MeetingRun(p, states, ops) && k < |ops| && i < |states[0].devices| && CustomPaths(states[0].streams)
    ensures |states[k].devices| == |states[k + 1].devices| == |states[0].devices|
    ensures paths == states[0].devices[i].paths == states[k].devices[i].paths
    ensures n == Count(states[k], i) && n' == Count(states[k + 1], i)
    ensures l.done == PathsOf(states[k].log, i) && l.useCount == Expected(paths, History(states, ops, k, i))
    ensures PathsOf(states[k + 1].log, i) == HappenAll(l, paths, Events(states[k], ops[k], i)).done
    ensures Moves(Events(states[k], ops[k], i), n, n') && Custom(Events(states[k], ops[k], i))
    ensures n == Connects(History(states, ops, k, i)) - Disconnects(History(states, ops, k, i))
    ensures n == 0 ==> (Connects(History(states, ops, k, i)) > 0 <==> exists j :: 0 <= j < k && UsedAt(states, j, i))
  {
    RunView(p, states, ops, k, i);
    RunView(p, states, ops, k + 1, i);
    OpView(p, states[k], ops[k], i);
    StepMoves(p, states, ops, k, i);
    UseAndUsers(p, states, ops, k, i);
    l, paths, n, n' := View(states[k], i), states[0].devices[i].paths, Count(states[k], i), Count(states[k + 1], i);
  }

  /** The use count of a device, and whether it had users before, in terms of its history. */
  lemma UseAndUsers(p: Platform, states: seq<Cm>, ops: seq<Op>, k: nat, i: nat)
    requires MeetingRun(p, states, ops) && k < |ops| && i < |states[0].devices| && CustomPaths(states[0].streams)
    ensures i < |states[k].devices| && Custom(Events(states[k], ops[k], i))
    ensures states[k].devices[i].useCount == Expected(states[0].devices[i].paths, History(states, ops, k, i))
    ensures InUse(History(states, ops, k, i)) == Count(states[k], i)
    ensures Count(states[k], i) == 0 ==>
      (Connects(History(states, ops, k, i)) > 0 <==> exists j :: 0 <= j < k && UsedAt(states, j, i))
  {
    MeetingRunInv(p, states, ops, k, i);
    RunView(p, states, ops, k, i);
    HistoryCustom(p, states, ops, k, i);
    CountIsExpected(states[0].devices[i].paths, History(states, ops, k, i));
    RunStreams(p, states, ops, k);
    EventsCustom(states[k], ops[k], i, states[0].streams);
    ConnectedIffUsed(p, states, ops, k, i);
    assert Count(states[k], i) == 0 ==> !UsedAt(states, k, i);
  }

  /** The documented rule on streams: on every run whose requests meet only what they mean, a device's "on"
      runs exactly when it gets its first user and its "off" exactly when it loses its last one, if and only
      if it defines both or neither, or only "on" and never gets a first user again, or only "off" and never
      loses one of several users. */
  lemma UsersRuleIff(p: Platform, states: seq<Cm>, ops: seq<Op>, i: nat)
    requires MeetingRun(p, states, ops) && i < |states[0].devices| && CustomPaths(states[0].streams)
    ensures forall k :: 0 <= k < |states| ==> |states[k].devices| == |states[0].devices|
    ensures
      var paths := states[0].devices[i].paths;
      (forall k :: 0 <= k < |ops| ==> UsersRuleAt(states, k, i)) <==>
        && (PATH_ON in paths && PATH_OFF !in paths ==> forall k :: 0 <= k < |ops| ==> !FirstUserAgain(states, k, i))
        && (PATH_OFF in paths && PATH_ON !in paths ==> forall k :: 0 <= k < |ops| ==> !LosesOneOfMany(states, k, i))
  {
    forall k | 0 <= k < |states| ensures |states[k].devices| == |states[0].devices| {
      RunView(p, states, ops, k, i);
    }
    forall k | 0 <= k < |ops|
      ensures
        var paths := states[0].devices[i].paths;
        UsersRuleAt(states, k, i) <==>
          && (PATH_ON in paths && PATH_OFF !in paths ==> !FirstUserAgain(states, k, i))
          && (PATH_OFF in paths && PATH_ON !in paths ==> !LosesOneOfMany(states, k, i))
    {
      UsersRuleAtIff(p, states, ops, k, i);
    }
  }

  // ---------------------------------------------------------------------------------------------
  // The order of the paths of a release
  // ---------------------------------------------------------------------------------------------

  /** The last release with the documented order on every device: the disable path, then "off". */
  function DocumentedRelease(cm: Cm, s: nat): Cm
    requires s < |cm.streams|
  {
    var st := cm.streams[s];
    var off := ToDevices(cm, st.current, st.disablePath, PATH_OFF);
    var glob := ToGlobal(off, st.disablePath, PATH_OFF);
    glob.(streams := cm.streams[s := st.(refCount := 0, current := {})])
  }

  ghost predicate SameOnDevice(cm: Cm, s: nat, i: nat)
    requires s < |cm.streams|
  {
    var a, b := Release(cm, s), DocumentedRelease(cm, s);
    i < |a.devices| && i < |b.devices| && View(a, i) == View(b, i)
  }

  lemma ReleaseOrderAt(cm: Cm, s: nat, i: nat)
    requires s < |cm.streams| && cm.streams[s].refCount == 1 && i < |cm.devices|
    ensures SameOnDevice(cm, s, i) <==>
      (i in Reached(cm.devices, cm.streams[s].current) ==>
         OrderIrrelevant(cm.devices[i].useCount, cm.devices[i].paths, cm.streams[s].disablePath))
  {
    var st := cm.streams[s];
    var mine, doc := ToDevices(cm, st.current, PATH_OFF, st.disablePath), ToDevices(cm, st.current, st.disablePath, PATH_OFF);
    ToDevicesView(cm, st.current, PATH_OFF, st.disablePath, i);
    ToDevicesView(cm, st.current, st.disablePath, PATH_OFF, i);
    ToGlobalView(mine, st.disablePath, PATH_OFF, i);
    ToGlobalView(doc, st.disablePath, PATH_OFF, i);
    SameGlobal(mine.devices, cm.devices);
    SameGlobal(doc.devices, cm.devices);
    OrderIff(View(cm, i), cm.devices[i].paths, st.disablePath);
  }

  /** The last release of a stream does to every device what the documented order would, exactly when on
      every device it reaches not both the disable path and "off" are defined, different and run. */
  lemma ReleaseOrderIff(cm: Cm, s: nat)
    requires s < |cm.streams| && cm.streams[s].refCount == 1
    ensures (forall i :: 0 <= i < |cm.devices| ==> SameOnDevice(cm, s, i)) <==>
      forall i :: 0 <= i < |cm.devices| && i in Reached(cm.devices, cm.streams[s].current) ==>
        OrderIrrelevant(cm.devices[i].useCount, cm.devices[i].paths, cm.streams[s].disablePath)
  {
    forall i | 0 <= i < |cm.devices|
      ensures SameOnDevice(cm, s, i) <==>
        (i in Reached(cm.devices, cm.streams[s].current) ==>
           OrderIrrelevant(cm.devices[i].useCount, cm.devices[i].paths, cm.streams[s].disablePath))
    {
      ReleaseOrderAt(cm, s, i);
    }
  }
}
