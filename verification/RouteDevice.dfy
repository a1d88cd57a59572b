/**
 One device of the route manager (configmgr/audio_config.c): its use count and the paths run on it, as a
 function of the connections and disconnections that reach it, whatever paths it defines.
 */
module RouteDevice {
  import opened RouteManager

  /** What happened to one device: its use count and the paths executed on it, in order. */
  datatype Local = Local(useCount: int, done: seq<int>)

  ghost function LocalPath(l: Local, id: int): Local {
    Local(Counted(l.useCount, id), if Executes(l.useCount, id) then l.done + [id] else l.done)
  }

  ghost function LocalById(l: Local, paths: seq<int>, first: int, second: int): (r: Local)
    ensures l.done <= r.done
  {
    var one := if first in paths then LocalPath(l, first) else l;
    if second != first && second in paths then LocalPath(one, second) else one
  }

  /** A stream was connected, or disconnected: by a route the disable path comes first, by the release of
      the stream the "off" path. */
  datatype Event = Connect(enable: int) | Disconnect(disable: int, offFirst: bool)

  ghost function Happen(l: Local, paths: seq<int>, e: Event): (r: Local)
    ensures l.done <= r.done
  {
    match e
    case Connect(enable) => LocalById(l, paths, PATH_ON, enable)
    case Disconnect(disable, offFirst) =>
      if offFirst then LocalById(l, paths, PATH_OFF, disable) else LocalById(l, paths, disable, PATH_OFF)
  }

  ghost function HappenAll(l: Local, paths: seq<int>, evs: seq<Event>): Local {
    if evs == [] then l else Happen(HappenAll(l, paths, evs[..|evs| - 1]), paths, evs[|evs| - 1])
  }

  lemma HappenOne(l: Local, paths: seq<int>, e: Event)
    ensures HappenAll(l, paths, [e]) == Happen(l, paths, e)
  {
    assert [e][..0] == [];
    assert HappenAll(l, paths, []) == l;
  }

  lemma {:induction false} HappenTwice(l: Local, paths: seq<int>, a: seq<Event>, b: seq<Event>)
    ensures HappenAll(l, paths, a + b) == HappenAll(HappenAll(l, paths, a), paths, b)
  {
    if b == [] {
      assert a + b == a;
    } else {
      HappenTwice(l, paths, a, b[..|b| - 1]);
      assert (a + b)[..|a + b| - 1] == a + b[..|b| - 1];
    }
  }

  const NEW := Local(0, [])

  /** Streams enable and disable custom paths, if any. */
  predicate CustomEvent(e: Event) {
    match e
    case Connect(enable) => enable != PATH_OFF
    case Disconnect(disable, _) => disable != PATH_ON
  }

  ghost predicate Custom(evs: seq<Event>) {
    forall j :: 0 <= j < |evs| ==> CustomEvent(evs[j])
  }

  ghost function Connects(evs: seq<Event>): nat {
    if evs == [] then 0 else Connects(evs[..|evs| - 1]) + if evs[|evs| - 1].Connect? then 1 else 0
  }

  ghost function Disconnects(evs: seq<Event>): nat {
    if evs == [] then 0 else Disconnects(evs[..|evs| - 1]) + if evs[|evs| - 1].Disconnect? then 1 else 0
  }

  /** Streams connected at the end. */
  ghost function InUse(evs: seq<Event>): int { Connects(evs) - Disconnects(evs) }

  lemma {:induction false} CountsAdd(a: seq<Event>, b: seq<Event>)
    ensures Connects(a + b) == Connects(a) + Connects(b) && Disconnects(a + b) == Disconnects(a) + Disconnects(b)
  {
    if b == [] {
      assert a + b == a;
    } else {
      CountsAdd(a, b[..|b| - 1]);
      assert (a + b)[..|a + b| - 1] == a + b[..|b| - 1];
    }
  }

  ghost function Expected(paths: seq<int>, evs: seq<Event>): int {
    (if PATH_ON in paths then Connects(evs) else 0) - (if PATH_OFF in paths then Disconnects(evs) else 0)
  }

  lemma HappenCount(l: Local, paths: seq<int>, e: Event)
    requires CustomEvent(e)
    ensures Happen(l, paths, e).useCount == l.useCount
      + (if e.Connect? && PATH_ON in paths then 1 else 0) - (if e.Disconnect? && PATH_OFF in paths then 1 else 0)
  {
  }

  /** The use count counts connections only if "on" is defined and disconnections only if "off" is. */
  lemma {:induction false} CountIsExpected(paths: seq<int>, evs: seq<Event>)
    requires Custom(evs)
    ensures HappenAll(NEW, paths, evs).useCount == Expected(paths, evs)
  {
    if evs != [] {
      var front, e := evs[..|evs| - 1], evs[|evs| - 1];
      assert CustomEvent(e);
      CountIsExpected(paths, front);
      HappenCount(HappenAll(NEW, paths, front), paths, e);
    }
  }

  // ---------------------------------------------------------------------------------------------
  // "on" and "off", event by event
  // ---------------------------------------------------------------------------------------------

  /** Path `id` runs in the event. */
  ghost predicate Runs(l: Local, paths: seq<int>, e: Event, id: int) {
    id in Happen(l, paths, e).done[|l.done|..]
  }

  lemma ConnectRuns(l: Local, paths: seq<int>, enable: int)
    requires enable != PATH_OFF
    ensures Runs(l, paths, Connect(enable), PATH_ON) <==> PATH_ON in paths && l.useCount <= 0
    ensures !Runs(l, paths, Connect(enable), PATH_OFF)
  {
    RanById(l, paths, PATH_ON, enable);
  }

  lemma DisconnectRuns(l: Local, paths: seq<int>, disable: int, offFirst: bool)
    requires disable != PATH_ON
    ensures Runs(l, paths, Disconnect(disable, offFirst), PATH_OFF) <==> PATH_OFF in paths && l.useCount <= 1
    ensures !Runs(l, paths, Disconnect(disable, offFirst), PATH_ON)
  {
    if offFirst {
      RanById(l, paths, PATH_OFF, disable);
    } else {
      RanById(l, paths, disable, PATH_OFF);
    }
  }

  lemma RunsOnOff(l: Local, paths: seq<int>, e: Event)
    requires CustomEvent(e)
    ensures Runs(l, paths, e, PATH_ON) <==> e.Connect? && PATH_ON in paths && l.useCount <= 0
    ensures Runs(l, paths, e, PATH_OFF) <==> e.Disconnect? && PATH_OFF in paths && l.useCount <= 1
  {
    match e
    case Connect(enable) => ConnectRuns(l, paths, enable);
    case Disconnect(disable, offFirst) => DisconnectRuns(l, paths, disable, offFirst);
  }

  lemma RanById(l: Local, paths: seq<int>, first: int, second: int)
    ensures var use := if first in paths then Counted(l.useCount, first) else l.useCount;
      LocalById(l, paths, first, second).done[|l.done|..] ==
        (if first in paths && Executes(l.useCount, first) then [first] else []) +
        (if second != first && second in paths && Executes(use, second) then [second] else [])
  {
  }

  /** At event `j` the device's "on" runs exactly if it is defined and the event is a connection with no other
      one standing, and "off" exactly if it is defined and the event takes the last connection away. The
      events are those that reach the device, whether a stream is routed to it or not. */
  ghost predicate FollowsAt(paths: seq<int>, evs: seq<Event>, j: nat)
    requires j < |evs|
  {
    var l, n := HappenAll(NEW, paths, evs[..j]), InUse(evs[..j]);
    && (Runs(l, paths, evs[j], PATH_ON) <==> PATH_ON in paths && evs[j].Connect? && n <= 0)
    && (Runs(l, paths, evs[j], PATH_OFF) <==> PATH_OFF in paths && evs[j].Disconnect? && n <= 1)
  }

  ghost predicate FollowsRule(paths: seq<int>, evs: seq<Event>) {
    forall j :: 0 <= j < |evs| ==> FollowsAt(paths, evs, j)
  }

  /** A connection with no other one standing, although there was one before. */
  ghost predicate ReconnectAt(evs: seq<Event>, j: nat)
    requires j < |evs|
  {
    evs[j].Connect? && InUse(evs[..j]) <= 0 && Connects(evs[..j]) > 0
  }

  /** A disconnection while another connection stays. */
  ghost predicate SharedAt(evs: seq<Event>, j: nat)
    requires j < |evs|
  {
    evs[j].Disconnect? && InUse(evs[..j]) > 1
  }

  lemma FollowsAtIff(paths: seq<int>, evs: seq<Event>, j: nat)
    requires Custom(evs) && j < |evs|
    ensures FollowsAt(paths, evs, j) <==>
      && (PATH_ON in paths && PATH_OFF !in paths ==> !ReconnectAt(evs, j))
      && (PATH_OFF in paths && PATH_ON !in paths ==> !SharedAt(evs, j))
  {
    assert CustomEvent(evs[j]);
    CountIsExpected(paths, evs[..j]);
    RunsOnOff(HappenAll(NEW, paths, evs[..j]), paths, evs[j]);
  }

  /** Whatever connections and disconnections reach a device, its "on" runs exactly on the first and its "off"
      exactly on the last of them, if and only if it defines both or neither, or defines only "on" and is
      never connected again once all have gone, or defines only "off" and never loses one of several. */
  lemma FollowsRuleIff(paths: seq<int>, evs: seq<Event>)
    requires Custom(evs)
    ensures FollowsRule(paths, evs) <==>
      && (PATH_ON in paths && PATH_OFF !in paths ==> forall j :: 0 <= j < |evs| ==> !ReconnectAt(evs, j))
      && (PATH_OFF in paths && PATH_ON !in paths ==> forall j :: 0 <= j < |evs| ==> !SharedAt(evs, j))
  {
    forall j | 0 <= j < |evs|
      ensures FollowsAt(paths, evs, j) <==>
        && (PATH_ON in paths && PATH_OFF !in paths ==> !ReconnectAt(evs, j))
        && (PATH_OFF in paths && PATH_ON !in paths ==> !SharedAt(evs, j))
    {
      FollowsAtIff(paths, evs, j);
    }
  }

  // ---------------------------------------------------------------------------------------------
  // A device with both paths
  // ---------------------------------------------------------------------------------------------

  /** Whether the last of "on" and "off" to run was "on". */
  ghost predicate Powered(done: seq<int>) {
    done != [] &&
    var id := done[|done| - 1];
    if id == PATH_ON then true else if id == PATH_OFF then false else Powered(done[..|done| - 1])
  }

  /** "on" and "off" ran in strict alternation, "on" first. */
  ghost predicate Alternates(done: seq<int>) {
    done == [] ||
    (var id, init := done[|done| - 1], done[..|done| - 1];
     && Alternates(init)
     && (id == PATH_ON ==> !Powered(init))
     && (id == PATH_OFF ==> Powered(init)))
  }

  /** A device connected to `n` streams: counted, powered exactly when used, switched on only on the
      first connection and off only on the last disconnection. */
  ghost predicate LocalOk(l: Local, n: nat) {
    && l.useCount == n
    && (Powered(l.done) <==> 0 < n)
    && Alternates(l.done)
  }

  predicate Tracked(paths: seq<int>) {
    PATH_ON in paths && PATH_OFF in paths
  }

  lemma PathKeepsLocal(l: Local, n: nat, id: int)
    requires LocalOk(l, n) && (id == PATH_OFF ==> 0 < n)
    ensures LocalOk(LocalPath(l, id), if id == PATH_ON then n + 1 else if id == PATH_OFF then n - 1 else n)
  {
    var done := l.done + [id];
    assert done[..|done| - 1] == l.done;
  }

  lemma HappenKeepsLocal(l: Local, n: nat, paths: seq<int>, e: Event)
    requires LocalOk(l, n) && Tracked(paths) && CustomEvent(e) && (e.Disconnect? ==> 0 < n)
    ensures LocalOk(Happen(l, paths, e), if e.Connect? then n + 1 else n - 1)
  {
    match e
    case Connect(enable) =>
      PathKeepsLocal(l, n, PATH_ON);
      if enable != PATH_ON {
        PathKeepsLocal(LocalPath(l, PATH_ON), n + 1, enable);
      }
    case Disconnect(disable, _) =>
      PathKeepsLocal(l, n, PATH_OFF);
      if disable != PATH_OFF {
        PathKeepsLocal(l, n, disable);
        PathKeepsLocal(LocalPath(l, disable), n, PATH_OFF);
        PathKeepsLocal(LocalPath(l, PATH_OFF), n - 1, disable);
      }
  }

  // ---------------------------------------------------------------------------------------------
  // The order of the two paths of a disconnection
  // ---------------------------------------------------------------------------------------------

  /** Running "off" before the disable path leaves the same record exactly when not both of them run. */
  predicate OrderIrrelevant(useCount: int, paths: seq<int>, disable: int) {
    disable == PATH_OFF || disable !in paths || PATH_OFF !in paths || !Executes(useCount, PATH_OFF)
  }

  lemma OrderIff(l: Local, paths: seq<int>, disable: int)
    ensures LocalById(l, paths, PATH_OFF, disable) == LocalById(l, paths, disable, PATH_OFF)
       <==> OrderIrrelevant(l.useCount, paths, disable)
  {
    RanById(l, paths, PATH_OFF, disable);
    RanById(l, paths, disable, PATH_OFF);
    var a, b := LocalById(l, paths, PATH_OFF, disable), LocalById(l, paths, disable, PATH_OFF);
    assert a.done == l.done + a.done[|l.done|..] && b.done == l.done + b.done[|l.done|..];
    if !OrderIrrelevant(l.useCount, paths, disable) {
      assert a.done[|l.done|..][0] == PATH_OFF;
    }
  }
}
