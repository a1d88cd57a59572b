/**
 The route manager on concrete device tables: the one of audio/audio.mocha.xml, and the shortest runs on
 which it departs from its documentation.
 */
module RouteConfig {
  import opened RouteManager
  import opened RouteWalk
  import opened RouteProperties

  // Path identifiers in the order in which audio/audio.mocha.xml introduces them.
  const ON_PCM := 2
  const OFF_PCM := 3
  const ON_PCM_REC := 4
  const OFF_PCM_REC := 5

  const SPEAKER: nat := 1
  const HEADSET: nat := 2
  const HEADPHONE: nat := 3
  const HEADSET_IN: nat := 4
  const MIC: nat := 2

  /** Its five devices; the microphone has the headset's bit, and no device defines "off". */
  const MOCHA: seq<Device> := [
    Device({SPEAKER}, 0, [PATH_ON, ON_PCM, OFF_PCM]),
    Device({HEADPHONE}, 0, [PATH_ON, ON_PCM, OFF_PCM]),
    Device({HEADSET}, 0, [PATH_ON, ON_PCM, OFF_PCM]),
    Device({HEADSET_IN, BIT_IN}, 0, [ON_PCM_REC, OFF_PCM_REC]),
    Device({MIC, BIT_IN}, 0, [PATH_ON, ON_PCM_REC, OFF_PCM_REC])]

  lemma MochaSameWay()
    ensures SameWayDisjoint(MOCHA)
  {
  }

  /** On this table a request is clear exactly when it carries the direction bit or, for an input stream,
      has no bit of an output device, and for an output stream lacks the headset microphone's bit. */
  lemma MochaClearIff(input: bool, m: Mask)
    ensures Clear(MOCHA, input, m) <==>
      BIT_IN in m || (if input then SPEAKER !in m && HEADSET !in m && HEADPHONE !in m else HEADSET_IN !in m)
  {
    if BIT_IN !in m {
      forall k | 0 <= k < 5 ensures Impostor(MOCHA, input, m, k) <==> MochaImpostor(input, m, k) {
        MochaImpostorIff(input, m, k);
      }
      assert MochaImpostor(input, m, 0) || MochaImpostor(input, m, 1) || MochaImpostor(input, m, 2) || MochaImpostor(input, m, 3)
        <==> !Clear(MOCHA, input, m);
    }
  }

  predicate MochaImpostor(input: bool, m: Mask, k: nat) {
    if input then (k == 0 && SPEAKER in m) || (k == 1 && HEADPHONE in m) || (k == 2 && HEADSET in m)
    else k == 3 && HEADSET_IN in m
  }

  lemma MochaImpostorIff(input: bool, m: Mask, k: nat)
    requires BIT_IN !in m && k < 5
    ensures Impostor(MOCHA, input, m, k) <==> MochaImpostor(input, m, k)
  {
    var left := Left(MOCHA, input, m, k);
    var bit := [SPEAKER, HEADPHONE, HEADSET, HEADSET_IN, MIC][k];
    assert BIT_IN !in left && bit in MOCHA[k].mask;
    if x :| x in MOCHA[k].mask * left {
      assert x == bit;
    }
    assert bit in left ==> bit in MOCHA[k].mask * left;
    if k == 4 && !input && bit in m {
      assert HEADSET in m * Low(MOCHA[2].mask);
      assert Intended(MOCHA[2], input, m);
    }
  }

  // ---------------------------------------------------------------------------------------------
  // Runs on this table
  // ---------------------------------------------------------------------------------------------

  /** The playback stream and the capture stream. */
  const STREAMS: seq<Stream> := [
    Stream(OutPcm, 0, 1, ON_PCM, OFF_PCM, {}), Stream(InPcm, 0, 1, ON_PCM_REC, OFF_PCM_REC, {})]

  const START: Cm := Cm(MOCHA, STREAMS, [])

  /** The masks of the platform keep every device's bit. */
  predicate KeepsAll(p: Platform) {
    {SPEAKER, HEADSET, HEADPHONE} <= p.outAll && {HEADSET_IN, MIC} <= p.inAll
  }

  /** A walk that reaches device `i` first and has no bit left behind it. */
  lemma {:induction false} WalkOnce(cm: Cm, k: nat, flag: Mask, remaining: Mask, first: int, second: int, i: nat)
    requires k <= i < |cm.devices| && Hit(cm.devices[i], flag, remaining) && remaining <= cm.devices[i].mask
    requires forall j :: k <= j < i ==> !Hit(cm.devices[j], flag, remaining)
    ensures Walk(cm, k, flag, remaining, first, second) == ApplyById(cm, i, first, second)
    decreases i - k
  {
    if k < i {
      WalkOnce(cm, k + 1, flag, remaining, first, second, i);
    } else {
      assert remaining - cm.devices[k].mask == {};
      WalkNothing(ApplyById(cm, k, first, second), k + 1, flag, first, second);
    }
  }

  lemma ToNothing(cm: Cm, first: int, second: int)
    ensures ToDevices(cm, {}, first, second) == cm
  {
    var none: Mask := {};
    assert Low(none) == {};
    WalkNothing(cm, 0, none * {BIT_IN}, first, second);
  }

  lemma ToFirst(cm: Cm, m: Mask, first: int, second: int, i: nat)
    requires i < |cm.devices| && Hit(cm.devices[i], m * {BIT_IN}, Low(m)) && Low(m) <= cm.devices[i].mask
    requires forall j :: 0 <= j < i ==> !Hit(cm.devices[j], m * {BIT_IN}, Low(m))
    ensures ToDevices(cm, m, first, second) == ApplyById(cm, i, first, second)
  {
    WalkOnce(cm, 0, m * {BIT_IN}, Low(m), first, second, i);
  }

  /** A single bit, with or without the direction bit, hits exactly the devices that have it. */
  lemma HitBit(d: Device, b: nat)
    requires b != BIT_IN
    ensures {b} * {BIT_IN} == {} && Low({b}) == {b} && (Hit(d, {}, {b}) <==> b in d.mask)
    ensures {b, BIT_IN} * {BIT_IN} == {BIT_IN} && Low({b, BIT_IN}) == {b}
    ensures Hit(d, {BIT_IN}, {b}) <==> BIT_IN in d.mask && b in d.mask
  {
    assert b in d.mask <==> b in d.mask * {b};
  }

  /** A request for one bit goes to the first device that has it. */
  lemma ToBit(cm: Cm, b: nat, first: int, second: int, i: nat)
    requires b != BIT_IN && i < |cm.devices| && b in cm.devices[i].mask && forall j :: 0 <= j < i ==> b !in cm.devices[j].mask
    ensures ToDevices(cm, {b}, first, second) == ApplyById(cm, i, first, second)
  {
    forall j | 0 <= j <= i ensures Hit(cm.devices[j], {b} * {BIT_IN}, Low({b})) <==> j == i {
      HitBit(cm.devices[j], b);
    }
    HitBit(cm.devices[i], b);
    ToFirst(cm, {b}, first, second, i);
  }

  /** A request for one input bit goes to the first input device that has it. */
  lemma ToInputBit(cm: Cm, b: nat, first: int, second: int, i: nat)
    requires b != BIT_IN && i < |cm.devices| && {b, BIT_IN} <= cm.devices[i].mask
    requires forall j :: 0 <= j < i ==> !({b, BIT_IN} <= cm.devices[j].mask)
    ensures ToDevices(cm, {b, BIT_IN}, first, second) == ApplyById(cm, i, first, second)
  {
    var m := {b, BIT_IN};
    forall j | 0 <= j <= i ensures Hit(cm.devices[j], m * {BIT_IN}, Low(m)) <==> j == i {
      HitBit(cm.devices[j], b);
    }
    HitBit(cm.devices[i], b);
    ToFirst(cm, m, first, second, i);
  }

  /** Opening a stream changes nothing else: the table has no global device. */
  lemma OpenOnly(s: nat)
    requires s < |STREAMS|
    ensures Open(START, s) == START.(streams := STREAMS[s := STREAMS[s].(refCount := 1)])
  {
    assert forall i :: 0 <= i < 5 ==> MOCHA[i].mask != {};
    assert GlobalIndex(MOCHA) == 5;
  }

  /** Routes of a stream that is connected to nothing, and to nothing. */
  lemma RouteFromNothing(p: Platform, cm: Cm, s: nat, m: Mask)
    requires s < |cm.streams| && cm.streams[s].current == {} && !WrongDirection(cm.streams[s], m)
    ensures
      var st := cm.streams[s];
      Route(p, cm, s, m) == ToDevices(cm, m, PATH_ON, st.enablePath).(streams := cm.streams[s := st.(current := Masked(p, m))])
  {
    var none: Mask := {};
    assert none - m == {} && m - none == m;
    ToNothing(cm, cm.streams[s].disablePath, PATH_OFF);
  }

  lemma RouteToNothing(p: Platform, cm: Cm, s: nat)
    requires s < |cm.streams|
    ensures
      var st := cm.streams[s];
      Route(p, cm, s, {}) == ToDevices(cm, st.current, st.disablePath, PATH_OFF).(streams := cm.streams[s := st.(current := {})])
  {
    var st, none: Mask := cm.streams[s], {};
    assert st.current - none == st.current && none - st.current == {};
    ToNothing(ToDevices(cm, st.current, st.disablePath, PATH_OFF), PATH_ON, st.enablePath);
  }

  /** Capture from the microphone. */
  function MicInUse(): Cm {
    Cm(MOCHA[4 := MOCHA[4].(useCount := 1)],
       STREAMS[1 := STREAMS[1].(refCount := 1, current := {MIC, BIT_IN})],
       [Applied(4, PATH_ON), Applied(4, ON_PCM_REC)])
  }

  lemma MicRoute(p: Platform, c1: Cm)
    requires KeepsAll(p) && c1 == Open(START, 1)
    ensures |c1.streams| == 2 && Route(p, c1, 1, {MIC, BIT_IN}) == MicInUse()
  {
    OpenOnly(1);
    RouteFromNothing(p, c1, 1, {MIC, BIT_IN});
    ToInputBit(c1, MIC, PATH_ON, ON_PCM_REC, 4);
    assert Masked(p, {MIC, BIT_IN}) == {MIC, BIT_IN};
  }

  lemma HeadsetSwitch(p: Platform)
    requires KeepsAll(p)
    ensures var c := Route(p, MicInUse(), 1, {HEADSET_IN, BIT_IN});
      && |c.streams| == 2 && MIC !in c.streams[1].current
      && c.log == MicInUse().log + [Applied(3, ON_PCM_REC)]
  {
    var c := MicInUse();
    var mic, headset: Mask := {MIC, BIT_IN}, {HEADSET_IN, BIT_IN};
    assert mic - headset == {MIC} && headset - mic == {HEADSET_IN};
    ToBit(c, MIC, OFF_PCM_REC, PATH_OFF, 2);
    ToBit(c, HEADSET_IN, PATH_ON, ON_PCM_REC, 3);
    assert Masked(p, headset) == headset;
  }

  /** Capture is switched from the microphone to the headset: the two routes share the direction bit, the
      difference lacks it, the walk ends at the headset's output device, and the microphone's controls are
      never switched off. */
  lemma MicSwitchLeavesMicOn(p: Platform) returns (c1: Cm, c2: Cm, c3: Cm)
    requires KeepsAll(p)
    ensures |STREAMS| == 2 && c1 == Open(START, 1)
    ensures |c1.streams| == 2 && c2 == Route(p, c1, 1, {MIC, BIT_IN})
    ensures |c2.streams| == 2 && c3 == Route(p, c2, 1, {HEADSET_IN, BIT_IN})
    ensures |c3.streams| == 2 && MIC !in c3.streams[1].current
    ensures c3.log == [Applied(4, PATH_ON), Applied(4, ON_PCM_REC), Applied(3, ON_PCM_REC)]
  {
    c1 := Open(START, 1);
    MicRoute(p, c1);
    c2 := MicInUse();
    HeadsetSwitch(p);
    c3 := Route(p, c2, 1, {HEADSET_IN, BIT_IN});
  }

  /** Playback, to the speaker or to nothing, after the speaker was connected `n` times. */
  function SpeakerUsed(n: int, current: Mask, log: seq<Applied>): Cm {
    Cm(MOCHA[0 := MOCHA[0].(useCount := n)], STREAMS[0 := STREAMS[0].(refCount := 1, current := current)], log)
  }

  lemma SpeakerConnects(p: Platform, n: nat, log: seq<Applied>, log': seq<Applied>)
    requires KeepsAll(p)
    requires log' == log + (if n == 0 then [Applied(0, PATH_ON), Applied(0, ON_PCM)] else [Applied(0, ON_PCM)])
    ensures Route(p, SpeakerUsed(n, {}, log), 0, {SPEAKER}) == SpeakerUsed(n + 1, {SPEAKER}, log')
  {
    var c := SpeakerUsed(n, {}, log);
    RouteFromNothing(p, c, 0, {SPEAKER});
    ToBit(c, SPEAKER, PATH_ON, ON_PCM, 0);
    assert Masked(p, {SPEAKER}) == {SPEAKER};
  }

  lemma SpeakerDisconnects(p: Platform, n: nat, log: seq<Applied>, log': seq<Applied>)
    requires log' == log + [Applied(0, OFF_PCM)]
    ensures Route(p, SpeakerUsed(n, {SPEAKER}, log), 0, {}) == SpeakerUsed(n, {}, log')
  {
    var c := SpeakerUsed(n, {SPEAKER}, log);
    RouteToNothing(p, c, 0);
    ToBit(c, SPEAKER, OFF_PCM, PATH_OFF, 0);
  }

  const FIRST := [Applied(0, PATH_ON), Applied(0, ON_PCM)]
  const LEFT := [Applied(0, PATH_ON), Applied(0, ON_PCM), Applied(0, OFF_PCM)]
  const AGAIN := [Applied(0, PATH_ON), Applied(0, ON_PCM), Applied(0, OFF_PCM), Applied(0, ON_PCM)]

  /** The opened playback stream, nothing connected yet. */
  lemma SpeakerOpened()
    ensures |STREAMS| == 2 && Open(START, 0) == SpeakerUsed(0, {}, [])
  {
    OpenOnly(0);
    assert MOCHA[0 := MOCHA[0].(useCount := 0)] == MOCHA;
  }

  /** The speaker defines "on" without "off": connected, disconnected and connected again, its "on" controls
      run once and its use count stays. */
  lemma SpeakerOnRunsOnce(p: Platform)
    requires KeepsAll(p)
    ensures Route(p, SpeakerUsed(0, {}, []), 0, {SPEAKER}) == SpeakerUsed(1, {SPEAKER}, FIRST)
    ensures Route(p, SpeakerUsed(1, {SPEAKER}, FIRST), 0, {}) == SpeakerUsed(1, {}, LEFT)
    ensures Route(p, SpeakerUsed(1, {}, LEFT), 0, {SPEAKER}) == SpeakerUsed(2, {SPEAKER}, AGAIN)
  {
    SpeakerConnects(p, 0, [], FIRST);
    SpeakerDisconnects(p, 1, FIRST, LEFT);
    SpeakerConnects(p, 1, LEFT, AGAIN);
  }

  // ---------------------------------------------------------------------------------------------
  // Other tables
  // ---------------------------------------------------------------------------------------------

  /** A device that defines "off" without "on", with two streams connected to it: when the first one leaves,
      it is switched off although the second is still connected, and its use count falls below zero. */
  lemma OffAloneRunsEarly(p: Platform) returns (cm: Cm)
    requires KeepsAll(p)
    ensures
      var st := Stream(OutPcm, 0, 1, -1, -1, {});
      var both := Open(Open(Cm([Device({SPEAKER}, 0, [PATH_OFF])], [st, st], []), 0), 1);
      |both.streams| == 2 && cm == Route(p, Route(p, both, 0, {SPEAKER}), 1, {SPEAKER})
    ensures |cm.streams| == 2 && cm.streams[0].current == cm.streams[1].current == {SPEAKER} && cm.log == []
    ensures
      var cm' := Route(p, cm, 0, {});
      && |cm'.devices| == 1 && cm'.log == [Applied(0, PATH_OFF)] && cm'.devices[0].useCount == -1
      && |cm'.streams| == 2 && cm'.streams[1].current == {SPEAKER}
  {
    var st := Stream(OutPcm, 0, 1, -1, -1, {});
    var both := Open(Open(Cm([Device({SPEAKER}, 0, [PATH_OFF])], [st, st], []), 0), 1);
    var none, speaker: Mask := {}, {SPEAKER};
    assert speaker - none == speaker && none - speaker == {} && Masked(p, speaker) == speaker;
    ToNothing(both, -1, PATH_OFF);
    ToBit(both, SPEAKER, PATH_ON, -1, 0);
    var one := Route(p, both, 0, speaker);
    ToNothing(one, -1, PATH_OFF);
    ToBit(one, SPEAKER, PATH_ON, -1, 0);
    cm := Route(p, one, 1, speaker);
    ToBit(cm, SPEAKER, -1, PATH_OFF, 0);
    ToNothing(ToDevices(cm, speaker, -1, PATH_OFF), PATH_ON, -1);
  }

  /** A stream is opened, routed to the speaker and released: "off" runs before the stream's disable path; the
      documented order is the other one. */
  lemma ReleaseRunsOffFirst(p: Platform) returns (cm: Cm)
    requires KeepsAll(p)
    ensures
      var st := Stream(OutPcm, 0, 1, -1, OFF_PCM, {});
      var first := Open(Cm([Device({SPEAKER}, 0, [PATH_ON, PATH_OFF, OFF_PCM])], [st], []), 0);
      |first.streams| == 1 && cm == Route(p, first, 0, {SPEAKER})
    ensures |cm.streams| == 1
    ensures Release(cm, 0).log == [Applied(0, PATH_ON), Applied(0, PATH_OFF), Applied(0, OFF_PCM)]
    ensures DocumentedRelease(cm, 0).log == [Applied(0, PATH_ON), Applied(0, OFF_PCM), Applied(0, PATH_OFF)]
  {
    var st := Stream(OutPcm, 0, 1, -1, OFF_PCM, {});
    var first := Open(Cm([Device({SPEAKER}, 0, [PATH_ON, PATH_OFF, OFF_PCM])], [st], []), 0);
    RouteFromNothing(p, first, 0, {SPEAKER});
    ToBit(first, SPEAKER, PATH_ON, -1, 0);
    assert Masked(p, {SPEAKER}) == {SPEAKER};
    cm := SpeakerConnected();
    ReleaseConnected();
  }

  function SpeakerConnected(): Cm {
    Cm([Device({SPEAKER}, 1, [PATH_ON, PATH_OFF, OFF_PCM])], [Stream(OutPcm, 1, 1, -1, OFF_PCM, {SPEAKER})], [Applied(0, PATH_ON)])
  }

  lemma ReleaseConnected()
    ensures Release(SpeakerConnected(), 0).log == [Applied(0, PATH_ON), Applied(0, PATH_OFF), Applied(0, OFF_PCM)]
    ensures DocumentedRelease(SpeakerConnected(), 0).log == [Applied(0, PATH_ON), Applied(0, OFF_PCM), Applied(0, PATH_OFF)]
  {
    var cm := SpeakerConnected();
    ToBit(cm, SPEAKER, PATH_OFF, OFF_PCM, 0);
    ToBit(cm, SPEAKER, OFF_PCM, PATH_OFF, 0);
  }

  /** Headset, headset microphone and built-in microphone with the shipped masks, each with "on" and "off". */
  function Labelled(headset: int, headsetIn: int, mic: int): seq<Device> {
    [Device({HEADSET}, headset, [PATH_ON, PATH_OFF]), Device({HEADSET_IN, BIT_IN}, headsetIn, [PATH_ON, PATH_OFF]),
     Device({MIC, BIT_IN}, mic, [PATH_ON, PATH_OFF])]
  }

  function Playing(refs: int, capture: Mask, playback: Mask): seq<Stream> {
    [Stream(OutPcm, refs, 1, -1, -1, playback), Stream(InPcm, refs, 1, -1, -1, capture)]
  }

  lemma LabelledGlobal(headset: int, headsetIn: int, mic: int)
    ensures GlobalIndex(Labelled(headset, headsetIn, mic)) == 3
  {
    var devices := Labelled(headset, headsetIn, mic);
    assert forall i :: 0 <= i < 3 ==> devices[i].mask != {};
  }

  lemma BothOpened()
    ensures Open(Open(Cm(Labelled(0, 0, 0), Playing(0, {}, {}), []), 0), 1) == Cm(Labelled(0, 0, 0), Playing(1, {}, {}), [])
  {
    LabelledGlobal(0, 0, 0);
  }

  lemma PlaybackToHeadset(p: Platform)
    requires KeepsAll(p)
    ensures Route(p, Cm(Labelled(0, 0, 0), Playing(1, {}, {}), []), 0, {HEADSET})
      == Cm(Labelled(1, 0, 0), Playing(1, {}, {HEADSET}), [Applied(0, PATH_ON)])
  {
    var cm := Cm(Labelled(0, 0, 0), Playing(1, {}, {}), []);
    RouteFromNothing(p, cm, 0, {HEADSET});
    ToBit(cm, HEADSET, PATH_ON, -1, 0);
    assert Masked(p, {HEADSET}) == {HEADSET};
  }

  lemma CaptureFromMic(p: Platform)
    requires KeepsAll(p)
    ensures Route(p, Cm(Labelled(1, 0, 0), Playing(1, {}, {HEADSET}), [Applied(0, PATH_ON)]), 1, {MIC, BIT_IN})
      == Cm(Labelled(1, 0, 1), Playing(1, {MIC, BIT_IN}, {HEADSET}), [Applied(0, PATH_ON), Applied(2, PATH_ON)])
  {
    var cm := Cm(Labelled(1, 0, 0), Playing(1, {}, {HEADSET}), [Applied(0, PATH_ON)]);
    RouteFromNothing(p, cm, 1, {MIC, BIT_IN});
    ToInputBit(cm, MIC, PATH_ON, -1, 2);
    assert Masked(p, {MIC, BIT_IN}) == {MIC, BIT_IN};
  }

  lemma CaptureToHeadset(p: Platform)
    requires KeepsAll(p)
    ensures Route(p, Cm(Labelled(1, 0, 1), Playing(1, {MIC, BIT_IN}, {HEADSET}), [Applied(0, PATH_ON), Applied(2, PATH_ON)]), 1, {HEADSET_IN, BIT_IN})
      == Cm(Labelled(0, 1, 1), Playing(1, {HEADSET_IN, BIT_IN}, {HEADSET}),
            [Applied(0, PATH_ON), Applied(2, PATH_ON), Applied(0, PATH_OFF), Applied(1, PATH_ON)])
  {
    var cm := Cm(Labelled(1, 0, 1), Playing(1, {MIC, BIT_IN}, {HEADSET}), [Applied(0, PATH_ON), Applied(2, PATH_ON)]);
    var mic, headset: Mask := {MIC, BIT_IN}, {HEADSET_IN, BIT_IN};
    assert mic - headset == {MIC} && headset - mic == {HEADSET_IN};
    ToBit(cm, MIC, -1, PATH_OFF, 0);
    var mid := ToDevices(cm, {MIC}, -1, PATH_OFF);
    ToBit(mid, HEADSET_IN, PATH_ON, -1, 1);
    assert Masked(p, headset) == headset;
  }

  /** Every device defines "on" and "off", playback is routed to the headset and capture to the microphone:
      switching capture to the headset microphone switches the headset off under the playback that is still
      routed to it, and leaves the microphone on. The run's last route does not meet only what it means. */
  lemma HeadsetOffUnderPlayback(p: Platform)
    requires KeepsAll(p)
    ensures
      var start := Cm(Labelled(0, 0, 0), Playing(0, {}, {}), []);
      var both := Cm(Labelled(0, 0, 0), Playing(1, {}, {}), []);
      var playing := Cm(Labelled(1, 0, 0), Playing(1, {}, {HEADSET}), [Applied(0, PATH_ON)]);
      var capturing := Cm(Labelled(1, 0, 1), Playing(1, {MIC, BIT_IN}, {HEADSET}), [Applied(0, PATH_ON), Applied(2, PATH_ON)]);
      var switched := Cm(Labelled(0, 1, 1), Playing(1, {HEADSET_IN, BIT_IN}, {HEADSET}), capturing.log + [Applied(0, PATH_OFF), Applied(1, PATH_ON)]);
      && Open(Open(start, 0), 1) == both
      && Route(p, both, 0, {HEADSET}) == playing
      && Route(p, playing, 1, {MIC, BIT_IN}) == capturing
      && Route(p, capturing, 1, {HEADSET_IN, BIT_IN}) == switched
    ensures !Clear(Labelled(1, 0, 1), true, {MIC})
  {
    BothOpened();
    PlaybackToHeadset(p);
    CaptureFromMic(p);
    CaptureToHeadset(p);
    assert MIC in Labelled(1, 0, 1)[0].mask * Left(Labelled(1, 0, 1), true, {MIC}, 0);
    assert Impostor(Labelled(1, 0, 1), true, {MIC}, 0);
  }

  /** The built-in microphone defined before the wired headset: routing an open output stream to the headset
      powers the microphone and leaves the headset off. */
  lemma HeadsetRoutePowersMicrophone(p: Platform)
    ensures
      var mic, headset := Device({MIC, BIT_IN}, 0, [PATH_ON, PATH_OFF]), Device({HEADSET}, 0, [PATH_ON, PATH_OFF]);
      var cm := Cm([mic, headset], [Stream(OutPcm, 1, 1, -1, -1, {})], []);
      var cm' := Route(p, cm, 0, {HEADSET});
      && cm'.devices[0].useCount == 1 && cm'.devices[1].useCount == 0
      && cm'.log == [Applied(0, PATH_ON)]
  {
    var mic, headset := Device({MIC, BIT_IN}, 0, [PATH_ON, PATH_OFF]), Device({HEADSET}, 0, [PATH_ON, PATH_OFF]);
    var cm := Cm([mic, headset], [Stream(OutPcm, 1, 1, -1, -1, {})], []);
    var none, route: Mask := {}, {HEADSET};
    assert none - route == {} && route - none == route;
    ToNothing(cm, -1, PATH_OFF);
    ToBit(cm, HEADSET, PATH_ON, -1, 0);
  }
}
