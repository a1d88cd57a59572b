/**
 The voice trigger state machine (audio/audio_hw.c): when it takes and gives back its reference to the
 voice stream of the route manager, in trigger-only and in full recognition mode.
 */
module VoiceTrigger {

  datatype VoiceState =
    | NoVoice | TriggerIdle | TriggerArmed | TriggerFired
    | RecogIdle | RecogArmed | RecogFired | RecogAudio | RecogReArm

  /** The stream pointer is only ever assigned by an open, so `held` says whether the last open found a
      stream, also long after that stream was released. `refs` counts references taken minus given back;
      `routed` tells whether the stream is routed to a microphone. */
  datatype Voice = Voice(st: VoiceState, held: bool, refs: int, routed: bool)

  /** `found` is whether the named stream could be taken. */
  datatype Op = Enable(found: bool) | Disable | Triggered | AudioStarted | AudioEnded

  function Opened(v: Voice, found: bool): Voice {
    if found then v.(held := true, refs := v.refs + 1, routed := true) else v.(held := false)
  }

  /** The pointer stays set: the source compares it with null instead of clearing it. */
  function Closed(v: Voice): Voice {
    if v.held then v.(refs := v.refs - 1, routed := false) else v
  }

  function Step(v: Voice, op: Op): Voice {
    match (op, v.st)
    case (Enable(found), TriggerIdle) => Opened(v, found).(st := TriggerArmed)
    case (Enable(found), TriggerFired) => Opened(v, found).(st := TriggerArmed)
    case (Enable(found), RecogIdle) => Opened(v, found).(st := RecogArmed)
    case (Enable(_), RecogAudio) => v.(st := RecogReArm)
    case (Disable, TriggerFired) => Closed(v).(st := TriggerIdle)
    case (Disable, TriggerArmed) => Closed(v).(st := TriggerIdle)
    case (Disable, RecogArmed) => Closed(v).(st := RecogIdle)
    case (Disable, RecogReArm) => v.(st := RecogAudio)
    case (Triggered, TriggerArmed) => v.(st := TriggerFired)
    case (Triggered, RecogArmed) => v.(st := RecogFired)
    case (AudioStarted, RecogFired) => v.(st := RecogAudio)
    case (AudioEnded, RecogAudio) => Closed(v).(st := RecogIdle)
    case (AudioEnded, RecogReArm) => v.(st := RecogArmed)
    case _ => v
  }

  class AudioDevice {
    var voiceSt: VoiceState
    var streamSet: bool
    var refs: int
    var routed: bool

    function View(): Voice
      reads this
    {
      Voice(voiceSt, streamSet, refs, routed)
    }

    /** Full recognition if its stream is configured, else trigger only, else nothing. */
    constructor (recogDefined: bool, triggerDefined: bool)
      ensures View() == Start(recogDefined, triggerDefined)
    {
      voiceSt := if recogDefined then RecogIdle else if triggerDefined then TriggerIdle else NoVoice;
      streamSet, refs, routed := false, 0, false;
    }

    method OpenStream(found: bool)
      modifies this
      ensures View() == Opened(old(View()), found)
    {
      streamSet := found;
      if streamSet {
        refs := refs + 1;
        routed := true;
      }
    }

    method CloseStream()
      modifies this
      ensures View() == Closed(old(View()))
    {
      if streamSet {
        routed := false;
        refs := refs - 1;
      }
    }

    method VoiceTriggerEnable(found: bool)
      modifies this
      ensures View() == Step(old(View()), Enable(found))
    {
      match voiceSt {
        case TriggerIdle =>
          OpenStream(found);
          voiceSt := TriggerArmed;
        case TriggerFired =>
          OpenStream(found);
          voiceSt := TriggerArmed;
        case RecogIdle =>
          OpenStream(found);
          voiceSt := RecogArmed;
        case RecogAudio => voiceSt := RecogReArm;
        case _ =>
      }
    }

    method VoiceTriggerDisable()
      modifies this
      ensures View() == Step(old(View()), Disable)
    {
      match voiceSt {
        case TriggerFired =>
          CloseStream();
          voiceSt := TriggerIdle;
        case TriggerArmed =>
          CloseStream();
          voiceSt := TriggerIdle;
        case RecogArmed =>
          CloseStream();
          voiceSt := RecogIdle;
        case RecogReArm => voiceSt := RecogAudio;
        case _ =>
      }
    }

    method VoiceTriggerTriggered()
      modifies this
      ensures View() == Step(old(View()), Triggered)
    {
      match voiceSt {
        case TriggerArmed => voiceSt := TriggerFired;
        case RecogArmed => voiceSt := RecogFired;
        case _ =>
      }
    }

    method AudioStartedLocked()
      modifies this
      ensures View() == Step(old(View()), AudioStarted)
    {
      if voiceSt == RecogFired {
        voiceSt := RecogAudio;
      }
    }

    method AudioEndedLocked()
      modifies this
      ensures View() == Step(old(View()), AudioEnded)
    {
      match voiceSt {
        case RecogAudio =>
          CloseStream();
          voiceSt := RecogIdle;
        case RecogReArm => voiceSt := RecogArmed;
        case _ =>
      }
    }
  }

  function Start(recogDefined: bool, triggerDefined: bool): Voice {
    Voice(if recogDefined then RecogIdle else if triggerDefined then TriggerIdle else NoVoice, false, 0, false)
  }

  function Run(v: Voice, ops: seq<Op>): Voice {
    if ops == [] then v else Step(Run(v, ops[..|ops| - 1]), ops[|ops| - 1])
  }

  predicate Idle(st: VoiceState) { st == NoVoice || st == TriggerIdle || st == RecogIdle }

  /** References the machine still knows of: one when it is not idle and the last open succeeded. */
  function Known(v: Voice): int { if !Idle(v.st) && v.held then 1 else 0 }

  /** Enabling again after a trigger, while the stream is held, forgets the earlier reference. */
  predicate Leaks(v: Voice, op: Op) { op.Enable? && v.st == TriggerFired && v.held }

  /** The `i`th operation of the run does so. */
  predicate LeakAt(v: Voice, ops: seq<Op>, i: nat)
    requires i < |ops|
  {
    Leaks(Run(v, ops[..i]), ops[i])
  }

  /** How often that happened in the first `n` operations. */
  function LeakCount(v: Voice, ops: seq<Op>, n: nat): nat
    requires n <= |ops|
  {
    if n == 0 then 0 else LeakCount(v, ops, n - 1) + if LeakAt(v, ops, n - 1) then 1 else 0
  }

  lemma RunMore(v: Voice, ops: seq<Op>, n: nat)
    requires 0 < n <= |ops|
    ensures Run(v, ops[..n]) == Step(Run(v, ops[..n - 1]), ops[n - 1])
  {
    assert ops[..n][..n - 1] == ops[..n - 1];
  }

  /** What one step does to the balance. */
  lemma StepBalance(v: Voice, op: Op)
    requires Known(v) == 1 ==> v.routed
    ensures var v' := Step(v, op);
      v'.refs - Known(v') == v.refs - Known(v) + (if Leaks(v, op) then 1 else 0) && (Known(v') == 1 ==> v'.routed)
  {
  }

  lemma {:induction false} RefsExactTo(recogDefined: bool, triggerDefined: bool, ops: seq<Op>, n: nat)
    requires n <= |ops|
    ensures var v0 := Start(recogDefined, triggerDefined);
      var v := Run(v0, ops[..n]);
      v.refs == Known(v) + LeakCount(v0, ops, n) && (Known(v) == 1 ==> v.routed)
  {
    if n > 0 {
      RefsExactTo(recogDefined, triggerDefined, ops, n - 1);
      RunMore(Start(recogDefined, triggerDefined), ops, n);
      StepBalance(Run(Start(recogDefined, triggerDefined), ops[..n - 1]), ops[n - 1]);
    }
  }

  /** Over every run, references taken minus given back are exactly those known plus those forgotten, none
      is given back that was not taken, and the microphone is routed while one is known. */
  lemma RefsExact(recogDefined: bool, triggerDefined: bool, ops: seq<Op>)
    ensures var v0 := Start(recogDefined, triggerDefined);
      var v := Run(v0, ops);
      v.refs == Known(v) + LeakCount(v0, ops, |ops|) && v.refs >= 0 && (Known(v) == 1 ==> v.routed)
  {
    RefsExactTo(recogDefined, triggerDefined, ops, |ops|);
    assert ops[..|ops|] == ops;
  }

  /** The stream pointer is replaced by the outcome of an open and by nothing else; closing leaves it set, so a
      released stream still compares as held. */
  lemma PointerOnlyByOpen(v: Voice, op: Op)
    ensures Step(v, op).held ==
      if op.Enable? && (v.st == TriggerIdle || v.st == TriggerFired || v.st == RecogIdle) then op.found else v.held
  {
  }

  predicate RecogMode(st: VoiceState) {
    st == RecogIdle || st == RecogArmed || st == RecogFired || st == RecogAudio || st == RecogReArm
  }

  lemma StepInMode(v: Voice, op: Op)
    requires RecogMode(v.st) && v.routed == (Known(v) == 1)
    ensures var v' := Step(v, op);
      RecogMode(v'.st) && !Leaks(v, op) && v'.routed == (Known(v') == 1)
  {
  }

  lemma {:induction false} StaysInMode(triggerDefined: bool, ops: seq<Op>, n: nat)
    requires n <= |ops|
    ensures var v0 := Start(true, triggerDefined);
      var v := Run(v0, ops[..n]);
      RecogMode(v.st) && LeakCount(v0, ops, n) == 0 && v.routed == (Known(v) == 1)
  {
    if n > 0 {
      StaysInMode(triggerDefined, ops, n - 1);
      RunMore(Start(true, triggerDefined), ops, n);
      StepInMode(Run(Start(true, triggerDefined), ops[..n - 1]), ops[n - 1]);
    }
  }

  /** In recognition mode the balance is 1 exactly when the machine is not idle and the last open
      succeeded, and 0 otherwise, whatever the order of the five operations; the route follows it. */
  lemma RecognitionBalances(triggerDefined: bool, ops: seq<Op>)
    ensures var v := Run(Start(true, triggerDefined), ops);
      v.refs == (if v.st != RecogIdle && v.held then 1 else 0) && v.routed == (v.refs == 1)
  {
    RefsExact(true, triggerDefined, ops);
    StaysInMode(triggerDefined, ops, |ops|);
    assert ops[..|ops|] == ops;
  }

  /** In trigger-only mode the same holds exactly on the runs that never enable a fired trigger whose
      stream is held. */
  lemma TriggerOnlyBalancesIff(ops: seq<Op>)
    ensures var v0 := Start(false, true);
      var v := Run(v0, ops);
      v.refs == Known(v)
      <==> forall i :: 0 <= i < |ops| ==> !LeakAt(v0, ops, i)
  {
    RefsExact(false, true, ops);
    NoLeaksIff(Start(false, true), ops, |ops|);
  }

  lemma {:induction false} NoLeaksIff(v: Voice, ops: seq<Op>, n: nat)
    requires n <= |ops|
    ensures LeakCount(v, ops, n) == 0 <==> forall i :: 0 <= i < n ==> !LeakAt(v, ops, i)
  {
    if n > 0 {
      NoLeaksIff(v, ops, n - 1);
    }
  }

  /** The shortest such run: arm, trigger, arm again, disable. The machine is idle and a reference is
      left. */
  lemma RearmLeaks()
    ensures var v := Run(Start(false, true), [Enable(true), Triggered, Enable(true), Disable]);
      v.st == TriggerIdle && v.refs == 1
  {
    var v0 := Start(false, true);
    var ops := [Enable(true), Triggered, Enable(true), Disable];
    assert ops[..3][..2] == ops[..2] && ops[..2][..1] == ops[..1] && ops[..1][..0] == [];
    assert Run(v0, ops[..1]) == Voice(TriggerArmed, true, 1, true);
    assert Run(v0, ops[..2]) == Voice(TriggerFired, true, 1, true);
    assert Run(v0, ops[..3]) == Voice(TriggerArmed, true, 2, true);
  }

  // ---------------------------------------------------------------------------------------------
  // Arming, firing and capturing
  // ---------------------------------------------------------------------------------------------

  /** A trigger is wanted, now or after the capture. */
  predicate Armed(st: VoiceState) { st == TriggerArmed || st == RecogArmed || st == RecogReArm }

  predicate Fired(st: VoiceState) { st == TriggerFired || st == RecogFired }

  predicate Capturing(st: VoiceState) { st == RecogAudio || st == RecogReArm }

  /** The states are what three facts and the mode make of them. */
  lemma StateIsItsFacts(a: VoiceState, b: VoiceState)
    requires RecogMode(a) == RecogMode(b) && (a == NoVoice <==> b == NoVoice)
    requires Armed(a) == Armed(b) && Fired(a) == Fired(b) && Capturing(a) == Capturing(b)
    ensures a == b
  {
  }

  /** What an operation does to the three facts, in any state: an enable arms, except in the time between a
      recognition's trigger and its audio; a disable disarms; a trigger fires exactly when armed and not
      capturing, which uses the arming up; audio starts a capture exactly when recognition has fired, and the
      end of audio ends it. The mode never changes. */
  predicate Follows(st: VoiceState, op: Op, st': VoiceState) {
    && RecogMode(st') == RecogMode(st) && (st' == NoVoice <==> st == NoVoice)
    && (Armed(st') <==>
          || (op.Enable? && st != NoVoice && st != RecogFired)
          || (Armed(st) && op != Disable && !(op == Triggered && !Capturing(st))))
    && (!Fired(st) && Fired(st') <==> op == Triggered && Armed(st) && !Capturing(st))
    && (Fired(st) && !Fired(st') <==>
          (st == TriggerFired && (op.Enable? || op == Disable)) || (st == RecogFired && op == AudioStarted))
    && (!Capturing(st) && Capturing(st') <==> st == RecogFired && op == AudioStarted)
    && (Capturing(st) && !Capturing(st') <==> Capturing(st) && op == AudioEnded)
  }

  lemma StepFollows(v: Voice, op: Op)
    ensures Follows(v.st, op, Step(v, op).st)
  {
  }

  /** The states of a run, before its first operation and after each one. */
  ghost function States(recogDefined: bool, triggerDefined: bool, ops: seq<Op>): (sts: seq<VoiceState>)
    ensures |sts| == |ops| + 1
    ensures forall n :: 0 <= n <= |ops| ==> sts[n] == Run(Start(recogDefined, triggerDefined), ops[..n]).st
  {
    seq(|ops| + 1, n requires 0 <= n <= |ops| => Run(Start(recogDefined, triggerDefined), ops[..n]).st)
  }

  ghost predicate Story(sts: seq<VoiceState>, ops: seq<Op>) {
    |sts| == |ops| + 1 && forall k :: 0 <= k < |ops| ==> Follows(sts[k], ops[k], sts[k + 1])
  }

  lemma RunIsStory(recogDefined: bool, triggerDefined: bool, ops: seq<Op>)
    ensures Story(States(recogDefined, triggerDefined, ops), ops)
  {
    var sts := States(recogDefined, triggerDefined, ops);
    forall k | 0 <= k < |ops| ensures Follows(sts[k], ops[k], sts[k + 1]) {
      RunMore(Start(recogDefined, triggerDefined), ops, k + 1);
      StepFollows(Run(Start(recogDefined, triggerDefined), ops[..k]), ops[k]);
    }
  }

  /** Enable `i` is heard, and before operation `n` it still counts: no disable and no firing since. */
  ghost predicate ArmedSince(sts: seq<VoiceState>, ops: seq<Op>, i: nat, n: nat)
    requires |sts| == |ops| + 1 && n <= |ops|
  {
    && i < n && ops[i].Enable? && sts[i] != NoVoice && sts[i] != RecogFired
    && forall j :: i < j < n ==> ops[j] != Disable && (Fired(sts[j + 1]) ==> Fired(sts[j]))
  }

  ghost predicate HeardEnable(sts: seq<VoiceState>, ops: seq<Op>, n: nat)
    requires |sts| == |ops| + 1 && n <= |ops|
  {
    exists i :: 0 <= i < n && ArmedSince(sts, ops, i, n)
  }

  lemma {:induction false} StoryArmed(sts: seq<VoiceState>, ops: seq<Op>, n: nat)
    requires Story(sts, ops) && n <= |ops| && !Armed(sts[0])
    ensures Armed(sts[n]) <==> HeardEnable(sts, ops, n)
  {
    if n > 0 {
      StoryArmed(sts, ops, n - 1);
      assert Follows(sts[n - 1], ops[n - 1], sts[n]);
      ArmedSinceNext(sts, ops, n);
    }
  }

  lemma ArmedSinceNext(sts: seq<VoiceState>, ops: seq<Op>, n: nat)
    requires |sts| == |ops| + 1 && 0 < n <= |ops|
    ensures HeardEnable(sts, ops, n) <==>
      || (ops[n - 1].Enable? && sts[n - 1] != NoVoice && sts[n - 1] != RecogFired)
      || (HeardEnable(sts, ops, n - 1)
          && ops[n - 1] != Disable && (Fired(sts[n]) ==> Fired(sts[n - 1])))
  {
    if HeardEnable(sts, ops, n) {
      var i :| 0 <= i < n && ArmedSince(sts, ops, i, n);
      assert i < n - 1 ==> ArmedSince(sts, ops, i, n - 1);
    }
    if ops[n - 1].Enable? && sts[n - 1] != NoVoice && sts[n - 1] != RecogFired {
      assert ArmedSince(sts, ops, n - 1, n);
    }
    if HeardEnable(sts, ops, n - 1) {
      var m := n - 1;
      var i :| 0 <= i < m && ArmedSince(sts, ops, i, m);
      if ops[n - 1] != Disable && (Fired(sts[n]) ==> Fired(sts[n - 1])) {
        assert ArmedSince(sts, ops, i, n);
      }
    }
  }

  /** On every run: the machine is armed, or armed for after the capture, exactly when an enable was heard
      that no disable has taken back and no firing has used up since. */
  lemma ArmedIff(recogDefined: bool, triggerDefined: bool, ops: seq<Op>, n: nat)
    requires n <= |ops|
    ensures var sts := States(recogDefined, triggerDefined, ops);
      Armed(sts[n]) <==> HeardEnable(sts, ops, n)
  {
    RunIsStory(recogDefined, triggerDefined, ops);
    StoryArmed(States(recogDefined, triggerDefined, ops), ops, n);
  }

  /** Audio started in operation `i` after recognition fired, and before operation `n` it has not ended. */
  ghost predicate CapturingSince(sts: seq<VoiceState>, ops: seq<Op>, i: nat, n: nat)
    requires |sts| == |ops| + 1 && n <= |ops|
  {
    && i < n && ops[i] == AudioStarted && sts[i] == RecogFired
    && forall j :: i < j < n ==> ops[j] != AudioEnded
  }

  ghost predicate StartedCapture(sts: seq<VoiceState>, ops: seq<Op>, n: nat)
    requires |sts| == |ops| + 1 && n <= |ops|
  {
    exists i :: 0 <= i < n && CapturingSince(sts, ops, i, n)
  }

  lemma {:induction false} StoryCapturing(sts: seq<VoiceState>, ops: seq<Op>, n: nat)
    requires Story(sts, ops) && n <= |ops| && !Capturing(sts[0])
    ensures Capturing(sts[n]) <==> StartedCapture(sts, ops, n)
  {
    if n > 0 {
      StoryCapturing(sts, ops, n - 1);
      assert Follows(sts[n - 1], ops[n - 1], sts[n]);
      CapturingSinceNext(sts, ops, n);
    }
  }

  lemma CapturingSinceNext(sts: seq<VoiceState>, ops: seq<Op>, n: nat)
    requires |sts| == |ops| + 1 && 0 < n <= |ops|
    ensures StartedCapture(sts, ops, n) <==>
      || (ops[n - 1] == AudioStarted && sts[n - 1] == RecogFired)
      || (StartedCapture(sts, ops, n - 1) && ops[n - 1] != AudioEnded)
  {
    if StartedCapture(sts, ops, n) {
      var i :| 0 <= i < n && CapturingSince(sts, ops, i, n);
      assert i < n - 1 ==> CapturingSince(sts, ops, i, n - 1);
    }
    if ops[n - 1] == AudioStarted && sts[n - 1] == RecogFired {
      assert CapturingSince(sts, ops, n - 1, n);
    }
    if StartedCapture(sts, ops, n - 1) {
      var m := n - 1;
      var i :| 0 <= i < m && CapturingSince(sts, ops, i, m);
      if ops[n - 1] != AudioEnded {
        assert CapturingSince(sts, ops, i, n);
      }
    }
  }

  /** On every run: audio is captured exactly from a start of audio after recognition fired up to the next end
      of audio. */
  lemma CapturingIff(recogDefined: bool, triggerDefined: bool, ops: seq<Op>, n: nat)
    requires n <= |ops|
    ensures var sts := States(recogDefined, triggerDefined, ops);
      Capturing(sts[n]) <==> StartedCapture(sts, ops, n)
  {
    RunIsStory(recogDefined, triggerDefined, ops);
    StoryCapturing(States(recogDefined, triggerDefined, ops), ops, n);
  }

  /** Recognition has fired or is capturing, so that a disable must wait for the end of the capture. */
  predicate Busy(st: VoiceState) { st == RecogFired || Capturing(st) }

  /** A capture has ended between operations `i` and `n`. */
  ghost predicate EndedBetween(sts: seq<VoiceState>, ops: seq<Op>, i: nat, n: nat)
    requires |sts| == |ops| + 1 && n <= |ops|
  {
    exists m :: i < m < n && ops[m] == AudioEnded && Capturing(sts[m])
  }

  lemma EndedBetweenNext(sts: seq<VoiceState>, ops: seq<Op>, i: nat, n: nat)
    requires |sts| == |ops| + 1 && i < n - 1 < n <= |ops|
    ensures EndedBetween(sts, ops, i, n) <==>
      EndedBetween(sts, ops, i, n - 1) || (ops[n - 1] == AudioEnded && Capturing(sts[n - 1]))
  {
  }

  lemma {:induction false} StoryDisabled(sts: seq<VoiceState>, ops: seq<Op>, i: nat, n: nat)
    requires Story(sts, ops) && i < n <= |ops| && ops[i] == Disable && forall j :: i < j < n ==> !ops[j].Enable?
    ensures !Armed(sts[n]) && (Idle(sts[n]) || Busy(sts[n]))
    ensures Idle(sts[n]) <==> !Busy(sts[i]) || EndedBetween(sts, ops, i, n)
  {
    assert Follows(sts[n - 1], ops[n - 1], sts[n]);
    if i < n - 1 {
      StoryDisabled(sts, ops, i, n - 1);
      EndedBetweenNext(sts, ops, i, n);
    }
  }

  /** A disable holds, on every run: as long as no enable follows, the machine is never armed again, and it
      is idle exactly if the disable did not find recognition busy or the capture it found has ended since. */
  lemma DisableHolds(recogDefined: bool, triggerDefined: bool, ops: seq<Op>, i: nat, n: nat)
    requires i < n <= |ops| && ops[i] == Disable && forall j :: i < j < n ==> !ops[j].Enable?
    ensures var sts := States(recogDefined, triggerDefined, ops);
      && !Armed(sts[n]) && (Idle(sts[n]) || Busy(sts[n]))
      && (Idle(sts[n]) <==> !Busy(sts[i]) || EndedBetween(sts, ops, i, n))
  {
    RunIsStory(recogDefined, triggerDefined, ops);
    StoryDisabled(States(recogDefined, triggerDefined, ops), ops, i, n);
  }

  /** An enable between the trigger and its audio is lost: the machine ends idle, although nothing disabled it. */
  lemma EnableWhileFiredIsLost()
    ensures Run(Start(true, false), [Enable(true), Triggered, Enable(true), AudioStarted, AudioEnded]).st == RecogIdle
  {
    var v0 := Start(true, false);
    var ops := [Enable(true), Triggered, Enable(true), AudioStarted, AudioEnded];
    assert ops[..4][..3] == ops[..3] && ops[..3][..2] == ops[..2] && ops[..2][..1] == ops[..1] && ops[..1][..0] == [];
    assert Run(v0, ops[..1]) == Voice(RecogArmed, true, 1, true);
    assert Run(v0, ops[..2]) == Voice(RecogFired, true, 1, true);
    assert Run(v0, ops[..3]) == Voice(RecogFired, true, 1, true);
    assert Run(v0, ops[..4]) == Voice(RecogAudio, true, 1, true);
  }
}
