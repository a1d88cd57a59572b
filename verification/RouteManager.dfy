/**
 The TinyHAL route manager (configmgr/audio_config.c): reference-counted streams and devices. A device
 has named control paths; its "on" path runs when the first stream is connected to it and its "off"
 path when the last one is disconnected. The nameless global device is connected to every open stream.

 A 32-bit device mask is modelled as the set of the positions of its one bits; the code only combines
 masks with and, or and complement.
 */
module RouteManager {
  import opened Basics

  type Mask = set<nat>

  const BIT_IN: nat := 31
  const PATH_OFF := 0
  const PATH_ON := 1

  function Low(m: Mask): Mask { m - {BIT_IN} }

  /** `mask` is the device type, empty for the global device; `paths` the ids of its paths. */
  datatype Device = Device(mask: Mask, useCount: int, paths: seq<int>)

  datatype Kind = OutPcm | InPcm | OutCompress | InCompress | OutHw | InHw | Global {
    predicate IsInput() { InPcm? || InCompress? || InHw? }
  }

  /** The kind that a stream's attributes give it, or none if they are refused: `global` says that it is
      named so, `named` that it has a name, and `out` is its direction. */
  function Configured(typ: string, out: bool, global: bool, named: bool): Option<Kind> {
    if global then Some(Kind.Global)
    else if typ == "hw" then if !named then None else Some(if out then OutHw else InHw)
    else if typ == "pcm" then Some(if out then OutPcm else InPcm)
    else if typ == "compress" then Some(if out then OutCompress else InCompress)
    else None
  }

  /** The kind of stream that get_stream looks for. */
  function KindFor(devices: Mask, pcm: bool): Kind {
    if BIT_IN in devices then if pcm then InPcm else InCompress
    else if pcm then OutPcm else OutCompress
  }

  /** A request finds exactly the streams that were configured with its direction and its format; those of
      type "hw" and the global ones are found by name only. */
  lemma FindsConfiguredIff(typ: string, out: bool, global: bool, named: bool, devices: Mask, pcm: bool)
    ensures Configured(typ, out, global, named) == Some(KindFor(devices, pcm)) <==>
      !global && out == (BIT_IN !in devices) && typ == if pcm then "pcm" else "compress"
  {
    assert "hw"[0] != "pcm"[0] && "hw"[0] != "compress"[0] && "pcm"[0] != "compress"[0];
  }

  /** A stream refuses exactly the routes against the direction it was configured with; a global stream
      refuses input routes. */
  lemma RefusesIff(typ: string, out: bool, global: bool, named: bool, st: Stream, devices: Mask)
    requires Configured(typ, out, global, named) == Some(st.kind)
    ensures WrongDirection(st, devices) <==> devices != {} && (BIT_IN in devices) == (out || global)
  {
  }

  datatype Stream = Stream(kind: Kind, refCount: int, maxRefCount: int, enablePath: int, disablePath: int, current: Mask)

  /** The controls of path `path` of device `device` were executed. */
  datatype Applied = Applied(device: nat, path: int)

  datatype Cm = Cm(devices: seq<Device>, streams: seq<Stream>, log: seq<Applied>)

  // ---------------------------------------------------------------------------------------------
  // Applying paths
  // ---------------------------------------------------------------------------------------------

  /** The use count after path `id` was invoked on the device, and whether its controls run. */
  function Counted(useCount: int, id: int): int {
    if id == PATH_OFF then useCount - 1 else if id == PATH_ON then useCount + 1 else useCount
  }

  predicate Executes(useCount: int, id: int) {
    if id == PATH_OFF then useCount - 1 <= 0 else if id == PATH_ON then useCount + 1 <= 1 else true
  }

  function ApplyPath(cm: Cm, i: nat, id: int): Cm
    requires i < |cm.devices|
  {
    var d := cm.devices[i];
    cm.(devices := cm.devices[i := d.(useCount := Counted(d.useCount, id))],
        log := if Executes(d.useCount, id) then cm.log + [Applied(i, id)] else cm.log)
  }

  /** Those of the two paths that the device defines, in order; once only if they are the same path. */
  function ApplyById(cm: Cm, i: nat, first: int, second: int): (r: Cm)
    requires i < |cm.devices|
    ensures |r.devices| == |cm.devices| && r.streams == cm.streams
  {
    var one := if first in cm.devices[i].paths then ApplyPath(cm, i, first) else cm;
    if second != first && second in cm.devices[i].paths then ApplyPath(one, i, second) else one
  }

  predicate Hit(d: Device, flag: Mask, remaining: Mask) {
    flag <= d.mask && d.mask * remaining != {}
  }

  /** The walk over the device array from index `k`: a device that matches takes its bits away. */
  function Walk(cm: Cm, k: nat, flag: Mask, remaining: Mask, first: int, second: int): (r: Cm)
    requires k <= |cm.devices|
    ensures |r.devices| == |cm.devices| && r.streams == cm.streams
    decreases |cm.devices| - k
  {
    if k == |cm.devices| then cm
    else if Hit(cm.devices[k], flag, remaining)
    then Walk(ApplyById(cm, k, first, second), k + 1, flag, remaining - cm.devices[k].mask, first, second)
    else Walk(cm, k + 1, flag, remaining, first, second)
  }

  function ToDevices(cm: Cm, devices: Mask, first: int, second: int): Cm {
    Walk(cm, 0, devices * {BIT_IN}, Low(devices), first, second)
  }

  /** The first device with an empty mask, or the number of devices. */
  function GlobalIndex(devices: seq<Device>): (g: nat)
    ensures g <= |devices|
    ensures g < |devices| ==> devices[g].mask == {}
    ensures forall i :: 0 <= i < g ==> devices[i].mask != {}
  {
    if devices == [] then 0 else if devices[0].mask == {} then 0 else 1 + GlobalIndex(devices[1..])
  }

  function ToGlobal(cm: Cm, first: int, second: int): Cm {
    var g := GlobalIndex(cm.devices);
    if g < |cm.devices| then ApplyById(cm, g, first, second) else cm
  }

  /** A walk with no bits left matches nothing. */
  lemma {:induction false} WalkNothing(cm: Cm, k: nat, flag: Mask, first: int, second: int)
    requires k <= |cm.devices|
    ensures Walk(cm, k, flag, {}, first, second) == cm
    decreases |cm.devices| - k
  {
    if k < |cm.devices| {
      assert cm.devices[k].mask * {} == {};
      WalkNothing(cm, k + 1, flag, first, second);
    }
  }

  // ---------------------------------------------------------------------------------------------
  // Stream operations
  // ---------------------------------------------------------------------------------------------

  /** The masks AUDIO_DEVICE_OUT_ALL and AUDIO_DEVICE_IN_ALL. */
  datatype Platform = Platform(outAll: Mask, inAll: Mask)

  predicate WrongDirection(s: Stream, devices: Mask) {
    devices != {} && (BIT_IN in devices) != s.kind.IsInput()
  }

  function Masked(p: Platform, devices: Mask): Mask {
    if devices == {} then {}
    else if BIT_IN in devices then (devices * p.inAll) + {BIT_IN}
    else devices * p.outAll
  }

  function Route(p: Platform, cm: Cm, s: nat, devices: Mask): Cm
    requires s < |cm.streams|
  {
    var st := cm.streams[s];
    if WrongDirection(st, devices) then cm
    else
      var disabled := ToDevices(cm, st.current - devices, st.disablePath, PATH_OFF);
      var enabled := ToDevices(disabled, devices - st.current, PATH_ON, st.enablePath);
      enabled.(streams := cm.streams[s := st.(current := Masked(p, devices))])
  }

  function Open(cm: Cm, s: nat): Cm
    requires s < |cm.streams|
  {
    var st := cm.streams[s];
    if st.refCount < st.maxRefCount then
      var cm' := cm.(streams := cm.streams[s := st.(refCount := st.refCount + 1)]);
      if st.refCount + 1 == 1 then ToGlobal(cm', PATH_ON, st.enablePath) else cm'
    else cm
  }

  function Release(cm: Cm, s: nat): Cm
    requires s < |cm.streams|
  {
    var st := cm.streams[s];
    if st.refCount - 1 == 0 then
      var off := ToDevices(cm, st.current, PATH_OFF, st.disablePath);
      var glob := ToGlobal(off, st.disablePath, PATH_OFF);
      glob.(streams := cm.streams[s := st.(refCount := 0, current := {})])
    else cm.(streams := cm.streams[s := st.(refCount := st.refCount - 1)])
  }

  class ConfigMgr {
    var cm: Cm
    const platform: Platform

    constructor (cm: Cm, platform: Platform)
      ensures this.cm == cm && this.platform == platform
    {
      this.cm, this.platform := cm, platform;
    }

    /** apply_paths_by_id_l: both paths are looked for in one walk of the device's path list. */
    method ApplyPathsById(i: nat, first: int, second: int)
      requires i < |cm.devices|
      modifies this
      ensures cm == ApplyById(old(cm), i, first, second)
    {
      var paths := cm.devices[i].paths;
      var found0, found1 := false, false;
      var k := 0;
      while k < |paths|
        invariant k <= |paths|
        invariant found0 <==> first in paths[..k]
        invariant found1 <==> second != first && second in paths[..k]
      {
        if paths[k] == first {
          found0 := true;
          if found1 || first == second {
            break;
          }
        } else if paths[k] == second {
          found1 := true;
          if found0 {
            break;
          }
        }
        k := k + 1;
      }
      assert k < |paths| ==> paths[k] in paths && forall x :: x in paths[..k] ==> x in paths;
      assert k == |paths| ==> paths[..k] == paths;
      if found0 {
        cm := ApplyPath(cm, i, first);
      }
      if found1 {
        cm := ApplyPath(cm, i, second);
      }
    }

    /** apply_paths_to_devices_l: the walk stops early once every requested bit is taken. */
    method ApplyPathsToDevices(devices: Mask, first: int, second: int)
      modifies this
      ensures cm == ToDevices(old(cm), devices, first, second)
    {
      var flag, remaining := devices * {BIT_IN}, devices - {BIT_IN};
      var k := 0;
      while k < |cm.devices| && remaining != {}
        invariant k <= |cm.devices| == |old(cm).devices|
        invariant Walk(cm, k, flag, remaining, first, second) == ToDevices(old(cm), devices, first, second)
      {
        if flag <= cm.devices[k].mask && cm.devices[k].mask * remaining != {} {
          remaining := remaining - cm.devices[k].mask;
          ApplyPathsById(k, first, second);
        }
        k := k + 1;
      }
      if remaining == {} {
        WalkNothing(cm, k, flag, first, second);
      }
    }

    method ApplyPathsToGlobal(first: int, second: int)
      modifies this
      ensures cm == ToGlobal(old(cm), first, second)
    {
      var k := 0;
      while k < |cm.devices|
        invariant k <= |cm.devices|
        invariant cm == old(cm)
        invariant forall i :: 0 <= i < k ==> cm.devices[i].mask != {}
      {
        if cm.devices[k].mask == {} {
          ApplyPathsById(k, first, second);
          return;
        }
        k := k + 1;
      }
    }

    method ApplyRoute(s: nat, devices: Mask)
      requires s < |cm.streams|
      modifies this
      ensures cm == Route(platform, old(cm), s, devices)
    {
      var st := cm.streams[s];
      var enabling, disabling := devices - st.current, st.current - devices;
      var masked := devices;
      if devices != {} {
        if BIT_IN in devices {
          if !st.kind.IsInput() {
            return;
          }
          masked := (devices * platform.inAll) + {BIT_IN};
        } else {
          if st.kind.IsInput() {
            return;
          }
          masked := devices * platform.outAll;
        }
      }
      ApplyPathsToDevices(disabling, st.disablePath, PATH_OFF);
      ApplyPathsToDevices(enabling, PATH_ON, st.enablePath);
      cm := cm.(streams := cm.streams[s := st.(current := masked)]);
    }

    /** open_stream_l. */
    method OpenStream(s: nat) returns (ok: bool)
      requires s < |cm.streams|
      modifies this
      ensures cm == Open(old(cm), s)
      ensures ok <==> old(cm).streams[s].refCount < old(cm).streams[s].maxRefCount
    {
      var st := cm.streams[s];
      if st.refCount < st.maxRefCount {
        cm := cm.(streams := cm.streams[s := st.(refCount := st.refCount + 1)]);
        if cm.streams[s].refCount == 1 {
          ApplyPathsToGlobal(PATH_ON, st.enablePath);
        }
        return true;
      }
      return false;
    }

    /** get_stream: the last stream of the wanted direction and format that still has room. A route of the
        wanted direction is not refused by it. */
    method GetStream(devices: Mask, pcm: bool) returns (found: bool, s: nat)
      modifies this
      ensures found ==> s < |cm.streams| && !WrongDirection(cm.streams[s], devices)
      ensures found ==> s < |old(cm).streams| && old(cm).streams[s].kind == KindFor(devices, pcm)
      ensures found ==> old(cm).streams[s].refCount < old(cm).streams[s].maxRefCount && cm == Open(old(cm), s)
      ensures forall j :: (if found then s else -1) < j < |old(cm).streams| && old(cm).streams[j].kind == KindFor(devices, pcm) ==>
        old(cm).streams[j].refCount >= old(cm).streams[j].maxRefCount
      ensures !found ==> cm == old(cm)
    {
      var kind;
      if BIT_IN in devices {
        kind := if pcm then InPcm else InCompress;
      } else {
        kind := if pcm then OutPcm else OutCompress;
      }
      var i := |cm.streams| - 1;
      while i >= 0
        invariant -1 <= i < |cm.streams|
        invariant cm == old(cm)
        invariant forall j :: i < j < |cm.streams| && cm.streams[j].kind == kind ==>
          cm.streams[j].refCount >= cm.streams[j].maxRefCount
      {
        if cm.streams[i].kind == kind {
          var ok := OpenStream(i);
          if ok {
            return true, i;
          }
        }
        i := i - 1;
      }
      return false, 0;
    }

    method ReleaseStream(s: nat)
      requires s < |cm.streams|
      modifies this
      ensures cm == Release(old(cm), s)
    {
      var st := cm.streams[s];
      if st.refCount - 1 == 0 {
        ApplyPathsToDevices(st.current, PATH_OFF, st.disablePath);
        ApplyPathsToGlobal(st.disablePath, PATH_OFF);
        cm := cm.(streams := cm.streams[s := st.(refCount := 0, current := {})]);
      } else {
        cm := cm.(streams := cm.streams[s := st.(refCount := st.refCount - 1)]);
      }
    }
  }
}
