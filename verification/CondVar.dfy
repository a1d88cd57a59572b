/**
 The condition variable of libmocha/bionic/pthread_cond.cpp: a futex word holding two flag bits and a
 counter. A waiter samples the word while it holds the mutex, releases the mutex, and asks the kernel
 to sleep if the word still has the sampled value; a signal or broadcast adds one to the counter and
 then wakes sleepers. Each of these is one atomic step here, and a run interleaves the steps of any
 number of threads in any order. Sleepers may also wake spuriously or by time-out.
 */
module CondVar {
  import opened Basics

  const FLAG_BITS := 4
  const COUNTER_STEP := 4
  const WORD_RANGE := 0x1_0000_0000
  const COUNTER_RANGE := 0x4000_0000
  const INT_MAX := 0x7fff_ffff

  /** Where a thread is. `id` identifies one wait, `at` is the number of pulses before its sample and
      `seen` the word it sampled; `pulse` numbers an addition whose wake has not run yet. */
  datatype Pc =
    | Running
    | Sampled(id: nat, at: nat, seen: nat)
    | Unlocked(id: nat, at: nat, seen: nat)
    | Asleep(id: nat, at: nat)
    | Awake
    | Added(pulse: nat, limit: nat)
  {
    predicate InWait(w: nat) {
      (Sampled? && id == w) || (Unlocked? && id == w) || (Asleep? && id == w)
    }

    function Since(w: nat): nat
      requires InWait(w)
    {
      match this
      case Sampled(_, at, _) => at
      case Unlocked(_, at, _) => at
      case Asleep(_, at) => at
    }
  }

  datatype Owner = Free | HeldBy(t: nat)

  /** `pulses` counts all additions ever made and `nextId` all waits ever begun. */
  datatype Cond = Cond(word: nat, flags: nat, pulses: nat, nextId: nat, mutex: Owner, threads: seq<Pc>) {

    ghost function Sleepers(): set<nat> {
      set t: nat | t < |threads| && threads[t].Asleep?
    }
  }

  datatype Step =
    | Lock(t: nat)
    | Unlock(t: nat)
    | Sample(t: nat)
    | Release(t: nat)
    | Compare(t: nat)
    | Spurious(t: nat)
    | Relock(t: nat)
    | Add(t: nat, limit: nat)
    | Wake(t: nat, woken: set<nat>)

  ghost predicate Enabled(s: Cond, step: Step) {
    && step.t < |s.threads|
    && var pc := s.threads[step.t];
       match step
       case Lock(t) => pc == Running && s.mutex == Free
       case Unlock(t) => pc == Running && s.mutex == HeldBy(t)
       case Sample(t) => pc == Running && s.mutex == HeldBy(t)
       case Release(t) => pc.Sampled?
       case Compare(t) => pc.Unlocked?
       case Spurious(t) => pc.Asleep?
       case Relock(t) => pc == Awake && s.mutex == Free
       case Add(t, limit) => pc == Running
       case Wake(t, woken) =>
         pc.Added? && woken <= s.Sleepers() && |woken| == Min(pc.limit, |s.Sleepers()|)
  }

  ghost function Apply(s: Cond, step: Step): Cond
    requires Enabled(s, step)
  {
    var t := step.t;
    match step
    case Lock(_) => s.(mutex := HeldBy(t))
    case Unlock(_) => s.(mutex := Free)
    case Sample(_) => s.(nextId := s.nextId + 1, threads := s.threads[t := Sampled(s.nextId, s.pulses, s.word)])
    case Release(_) =>
      var pc := s.threads[t];
      s.(mutex := Free, threads := s.threads[t := Unlocked(pc.id, pc.at, pc.seen)])
    case Compare(_) =>
      var pc := s.threads[t];
      s.(threads := s.threads[t := if s.word == pc.seen then Asleep(pc.id, pc.at) else Awake])
    case Spurious(_) => s.(threads := s.threads[t := Awake])
    case Relock(_) => s.(mutex := HeldBy(t), threads := s.threads[t := Running])
    case Add(_, limit) =>
      s.(word := (s.word + COUNTER_STEP) % WORD_RANGE, pulses := s.pulses + 1,
         threads := s.threads[t := Added(s.pulses + 1, limit)])
    case Wake(_, woken) =>
      s.(threads := seq(|s.threads|, u requires 0 <= u < |s.threads| =>
           if u == t then Running else if u in woken then Awake else s.threads[u]))
  }

  /** The word after `n` pulses. */
  function WordAt(flags: nat, n: nat): nat {
    (flags + COUNTER_STEP * n) % WORD_RANGE
  }

  /** The word repeats exactly every 2^30 pulses. */
  lemma WordRepeats(flags: nat, a: nat, p: nat)
    requires a <= p
    ensures WordAt(flags, a) == WordAt(flags, p) <==> (p - a) % COUNTER_RANGE == 0
  {
    assert (flags + 4 * p) - (flags + 4 * a) == 4 * (p - a);
  }

  /** A thread in its wait sampled a word that was there, and holds the mutex exactly until it releases it. */
  ghost predicate ThreadOk(s: Cond, t: nat)
    requires t < |s.threads|
  {
    match s.threads[t]
    case Running => true
    case Awake => s.mutex != HeldBy(t)
    case Sampled(id, at, seen) => id < s.nextId && at <= s.pulses && seen == WordAt(s.flags, at) && s.mutex == HeldBy(t)
    case Unlocked(id, at, seen) => id < s.nextId && at <= s.pulses && seen == WordAt(s.flags, at) && s.mutex != HeldBy(t)
    case Asleep(id, at) => id < s.nextId && at <= s.pulses && s.mutex != HeldBy(t)
    case Added(p, _) => p <= s.pulses
  }

  /** The word counts the pulses, and every thread is where its record says. */
  ghost predicate Inv(s: Cond) {
    && s.flags < FLAG_BITS
    && s.word == WordAt(s.flags, s.pulses)
    && forall t :: 0 <= t < |s.threads| ==> ThreadOk(s, t)
  }

  /** Threads that a step does not touch. */
  lemma OtherThreadOk(s: Cond, s': Cond, u: nat)
    requires u < |s.threads| == |s'.threads| && ThreadOk(s, u) && s'.threads[u] == s.threads[u]
    requires s'.flags == s.flags && s.nextId <= s'.nextId && s.pulses <= s'.pulses
    requires s'.mutex == HeldBy(u) <==> s.mutex == HeldBy(u)
    ensures ThreadOk(s', u)
  {
  }

  lemma WordAfterAdd(flags: nat, n: nat)
    ensures (WordAt(flags, n) + COUNTER_STEP) % WORD_RANGE == WordAt(flags, n + 1)
  {
  }

  lemma StepKeepsThread(s: Cond, step: Step, u: nat)
    requires Inv(s) && Enabled(s, step) && u < |s.threads|
    ensures |Apply(s, step).threads| == |s.threads| && ThreadOk(Apply(s, step), u)
  {
    var s' := Apply(s, step);
    assert ThreadOk(s, u) && ThreadOk(s, step.t);
    if u != step.t && !(step.Wake? && u in step.woken) {
      OtherThreadOk(s, s', u);
    }
  }

  lemma StepKeepsInv(s: Cond, step: Step)
    requires Inv(s) && Enabled(s, step)
    ensures Inv(Apply(s, step))
  {
    WordAfterAdd(s.flags, s.pulses);
    forall u | 0 <= u < |Apply(s, step).threads| ensures ThreadOk(Apply(s, step), u) {
      StepKeepsThread(s, step, u);
    }
  }

  ghost predicate Run(states: seq<Cond>, steps: seq<Step>) {
    && |states| == |steps| + 1
    && Inv(states[0])
    && forall k :: 0 <= k < |steps| ==> Enabled(states[k], steps[k]) && states[k + 1] == Apply(states[k], steps[k])
  }

  /** A condition variable just initialised with the given attribute flags, nobody waiting. */
  lemma InitInv(flags: nat, n: nat)
    requires flags < FLAG_BITS
    ensures Inv(Cond(flags, flags, 0, 0, Free, seq(n, _ => Running)))
  {
  }

  lemma {:induction false} RunInv(states: seq<Cond>, steps: seq<Step>, k: nat)
    requires Run(states, steps) && k < |states|
    ensures Inv(states[k]) && |states[k].threads| == |states[0].threads| && states[k].flags == states[0].flags
  {
    if k > 0 {
      RunInv(states, steps, k - 1);
      StepKeepsInv(states[k - 1], steps[k - 1]);
    }
  }

  /** The counter never reaches into the flag bits. */
  lemma FlagsOfWord(flags: nat, n: nat)
    requires flags < FLAG_BITS
    ensures WordAt(flags, n) % FLAG_BITS == flags
  {
    var q := (flags + COUNTER_STEP * n) / WORD_RANGE;
    assert WordAt(flags, n) == flags + 4 * (n - q * COUNTER_RANGE);
  }

  /** The flag bits never change, however often the counter overflows, so the futex a waiter sleeps on
      and the one a signal wakes are always of the same kind. */
  lemma FlagsPreserved(states: seq<Cond>, steps: seq<Step>, k: nat)
    requires Run(states, steps) && k < |states|
    ensures states[k].word % FLAG_BITS == states[0].word % FLAG_BITS == states[0].flags
  {
    RunInv(states, steps, k);
    FlagsOfWord(states[0].flags, states[0].pulses);
    FlagsOfWord(states[0].flags, states[k].pulses);
  }

  /** In every reachable state a futex compare puts the thread to sleep exactly when the number of
      pulses since its sample is a multiple of 2^30. */
  lemma CompareSleepsIff(states: seq<Cond>, steps: seq<Step>, k: nat)
    requires Run(states, steps) && k < |steps| && steps[k].Compare?
    ensures steps[k].t < |states[k].threads| == |states[k + 1].threads| && states[k].threads[steps[k].t].Unlocked?
    ensures states[k + 1].threads[steps[k].t].Asleep?
       <==> (states[k].pulses - states[k].threads[steps[k].t].at) % COUNTER_RANGE == 0
  {
    RunInv(states, steps, k);
    var pc := states[k].threads[steps[k].t];
    assert ThreadOk(states[k], steps[k].t);
    WordRepeats(states[k].flags, pc.at, states[k].pulses);
  }

  // ---------------------------------------------------------------------------------------------
  // The mutex over a wait
  // ---------------------------------------------------------------------------------------------

  ghost predicate Waits(pc: Pc) {
    pc.Sampled? || pc.Unlocked? || pc.Asleep? || pc.Awake?
  }

  /** The mutex passes to a thread only when nobody holds it, exactly by that thread's lock or at the end of
      its wait, and leaves it exactly by its own unlock or the release inside its wait. */
  lemma MutexPasses(states: seq<Cond>, steps: seq<Step>, k: nat, t: nat)
    requires Run(states, steps) && k < |steps|
    ensures states[k].mutex != HeldBy(t) && states[k + 1].mutex == HeldBy(t)
       <==> steps[k].t == t && (steps[k].Lock? || steps[k].Relock?)
    ensures states[k].mutex != HeldBy(t) && states[k + 1].mutex == HeldBy(t) ==> states[k].mutex == Free
    ensures states[k].mutex == HeldBy(t) && states[k + 1].mutex != HeldBy(t)
       <==> steps[k].t == t && (steps[k].Unlock? || steps[k].Release?)
  {
    RunInv(states, steps, k);
    assert ThreadOk(states[k], steps[k].t);
  }

  /** A waiting thread goes on waiting, or its wait returns with the mutex, which was free. */
  lemma StepOfWaiter(s: Cond, step: Step, t: nat)
    requires Inv(s) && Enabled(s, step) && t < |s.threads| && Waits(s.threads[t])
    ensures var s' := Apply(s, step);
      && |s'.threads| == |s.threads|
      && (Waits(s'.threads[t]) ||
          (s.threads[t].Awake? && s.mutex == Free && s'.threads[t] == Running && s'.mutex == HeldBy(t)))
      && (s'.threads[t].Sampled? ==> s.threads[t].Sampled?)
  {
  }

  /** From its sample on, a wait is first before and then after its release of the mutex. */
  lemma {:induction false} PhasesOfWait(states: seq<Cond>, steps: seq<Step>, a: nat, b: nat, t: nat) returns (c: nat)
    requires Run(states, steps) && a < b < |states| && steps[a] == Sample(t) && t < |states[0].threads|
    requires forall k :: a < k <= b ==> t < |states[k].threads| && states[k].threads[t] != Running
    ensures a < c <= b
    ensures forall k :: a < k <= c ==> states[k].threads[t].Sampled?
    ensures forall k :: c < k <= b ==> Waits(states[k].threads[t]) && !states[k].threads[t].Sampled?
  {
    if b == a + 1 {
      c := b;
    } else {
      c := PhasesOfWait(states, steps, a, b - 1, t);
      RunInv(states, steps, b - 1);
      StepOfWaiter(states[b - 1], steps[b - 1], t);
      if states[b].threads[t].Sampled? {
        c := b;
      }
    }
  }

  /** Over a whole wait, from its sample in step `a` to its return in step `b`: the thread holds the mutex at
      the sample and up to its release of it, does not hold it from then on, and holds it again, taken while
      nobody held it, when the wait returns. */
  lemma WaitReturnsLocked(states: seq<Cond>, steps: seq<Step>, a: nat, b: nat, t: nat) returns (c: nat)
    requires Run(states, steps) && a < b < |steps| && steps[a] == Sample(t) && t < |states[0].threads|
    requires forall k :: a < k <= b ==> t < |states[k].threads| && states[k].threads[t] != Running
    requires t < |states[b + 1].threads| && states[b + 1].threads[t] == Running
    ensures a < c < b
    ensures forall k :: a <= k <= c ==> states[k].mutex == HeldBy(t)
    ensures forall k :: c < k <= b ==> states[k].mutex != HeldBy(t)
    ensures states[b].mutex == Free && states[b + 1].mutex == HeldBy(t)
  {
    c := PhasesOfWait(states, steps, a, b, t);
    RunInv(states, steps, b);
    StepOfWaiter(states[b], steps[b], t);
    RunInv(states, steps, a);
    forall k | a <= k <= b ensures if k <= c then states[k].mutex == HeldBy(t) else states[k].mutex != HeldBy(t) {
      RunInv(states, steps, k);
      assert k > a ==> ThreadOk(states[k], t);
    }
  }

  // ---------------------------------------------------------------------------------------------
  // Wake-ups
  // ---------------------------------------------------------------------------------------------

  /** Fewer than 2^30 pulses fall between any sample and its futex compare. */
  ghost predicate NoWrap(states: seq<Cond>, steps: seq<Step>)
    requires Run(states, steps)
  {
    forall k :: 0 <= k < |steps| && steps[k].Compare? ==>
      states[k].pulses - states[k].threads[steps[k].t].at < COUNTER_RANGE
  }

  /** Thread `t` is past pulse `p` as far as its wait `w` is concerned: if it is still in that wait, it
      sampled before the pulse. */
  ghost predicate Overtaken(s: Cond, t: nat, w: nat, p: nat) {
    && t < |s.threads| && w < s.nextId && p <= s.pulses
    && (s.threads[t].InWait(w) ==> s.threads[t].Since(w) < p)
  }

  ghost predicate SleepsIn(s: Cond, t: nat, w: nat) {
    t < |s.threads| && s.threads[t].Asleep? && s.threads[t].id == w
  }

  lemma StepKeepsOvertaken(s: Cond, step: Step, t: nat, w: nat, p: nat)
    requires Inv(s) && Enabled(s, step) && Overtaken(s, t, w, p)
    requires step.Compare? ==> s.pulses - s.threads[step.t].at < COUNTER_RANGE
    ensures Overtaken(Apply(s, step), t, w, p)
    ensures !SleepsIn(s, t, w) ==> !SleepsIn(Apply(s, step), t, w)
  {
    assert ThreadOk(s, t);
    if step.Compare? && step.t == t && s.threads[t].id == w {
      WordRepeats(s.flags, s.threads[t].at, s.pulses);
    }
  }

  /** Once overtaken and not asleep, a thread never sleeps in that wait again. */
  lemma {:induction false} StaysReleased(states: seq<Cond>, steps: seq<Step>, t: nat, w: nat, p: nat, j: nat, k: nat)
    requires Run(states, steps) && NoWrap(states, steps) && j <= k < |states|
    requires Overtaken(states[j], t, w, p) && !SleepsIn(states[j], t, w)
    ensures Overtaken(states[k], t, w, p) && !SleepsIn(states[k], t, w)
    decreases k - j
  {
    if j < k {
      StaysReleased(states, steps, t, w, p, j, k - 1);
      RunInv(states, steps, k - 1);
      StepKeepsOvertaken(states[k - 1], steps[k - 1], t, w, p);
    }
  }

  lemma {:induction false} StaysOvertaken(states: seq<Cond>, steps: seq<Step>, t: nat, w: nat, p: nat, j: nat, k: nat)
    requires Run(states, steps) && NoWrap(states, steps) && j <= k < |states|
    requires Overtaken(states[j], t, w, p)
    ensures Overtaken(states[k], t, w, p)
    decreases k - j
  {
    if j < k {
      StaysOvertaken(states, steps, t, w, p, j, k - 1);
      RunInv(states, steps, k - 1);
      StepKeepsOvertaken(states[k - 1], steps[k - 1], t, w, p);
    }
  }

  /** The addition overtakes every wait in progress. */
  lemma AddOvertakes(states: seq<Cond>, steps: seq<Step>, i: nat, t: nat, w: nat)
    requires Run(states, steps) && i < |steps| && steps[i].Add?
    requires t < |states[i].threads| && states[i].threads[t].InWait(w)
    ensures Overtaken(states[i + 1], t, w, states[i].pulses + 1)
  {
    RunInv(states, steps, i);
    assert ThreadOk(states[i], t);
  }

  /** Step `i` is the addition and step `j` the wake of one pulse by thread `b`. */
  ghost predicate PulseOf(states: seq<Cond>, steps: seq<Step>, i: nat, j: nat, b: nat, limit: nat)
    requires Run(states, steps)
  {
    && i < j < |steps|
    && steps[i] == Add(b, limit)
    && steps[j].Wake? && steps[j].t == b
    && states[j].threads[b] == Added(states[i].pulses + 1, limit)
  }

  /** A thread that is released from wait `w` has left it or is about to: it is not asleep, and if it
      reaches its futex compare the compare fails. */
  ghost predicate Released(s: Cond, t: nat, w: nat) {
    && t < |s.threads|
    && !SleepsIn(s, t, w)
    && (s.threads[t].Unlocked? && s.threads[t].id == w && s.pulses - s.threads[t].at < COUNTER_RANGE ==>
          s.word != s.threads[t].seen)
  }

  lemma OvertakenIsReleased(s: Cond, t: nat, w: nat, p: nat)
    requires Inv(s) && Overtaken(s, t, w, p) && !SleepsIn(s, t, w)
    ensures Released(s, t, w)
  {
    assert ThreadOk(s, t);
    if s.threads[t].Unlocked? && s.threads[t].id == w {
      WordRepeats(s.flags, s.threads[t].at, s.pulses);
    }
  }

  lemma WakeAllTakesSleepers(s: Cond, step: Step)
    requires Enabled(s, step) && step.Wake? && |s.threads| <= s.threads[step.t].limit
    ensures step.woken == s.Sleepers()
  {
    AtMostOneSleeperEach(s.threads);
    assert s.Sleepers() == set t: nat | t < |s.threads| && s.threads[t].Asleep?;
    SubsetEq(step.woken, s.Sleepers());
  }

  lemma {:induction false} AtMostOneSleeperEach(threads: seq<Pc>)
    ensures |set t: nat | t < |threads| && threads[t].Asleep?| <= |threads|
  {
    if threads != [] {
      var n := |threads| - 1;
      var init := threads[..n];
      AtMostOneSleeperEach(init);
      var rest := set t: nat | t < |init| && init[t].Asleep?;
      assert (set t: nat | t < |threads| && threads[t].Asleep?) == rest + if threads[n].Asleep? then {n} else {};
    }
  }

  lemma {:induction false} SubsetCard<T>(a: set<T>, b: set<T>)
    requires a <= b
    ensures |a| <= |b|
  {
    if a != {} {
      var x :| x in a;
      SubsetCard(a - {x}, b - {x});
    }
  }

  lemma SubsetEq<T>(a: set<T>, b: set<T>)
    requires a <= b && |a| == |b|
    ensures a == b
  {
    if a != b {
      var x :| x in b && x !in a;
      SubsetCard(a, b - {x});
    }
  }

  /** No broadcast is lost: a thread that began its wait before the broadcast's addition is released by
      it. After the broadcast's wake it never sleeps in that wait again, whatever the interleaving. */
  lemma BroadcastReleasesAll(states: seq<Cond>, steps: seq<Step>, i: nat, j: nat, b: nat, t: nat, w: nat, k: nat)
    requires Run(states, steps) && NoWrap(states, steps) && |states[0].threads| <= INT_MAX
    requires PulseOf(states, steps, i, j, b, INT_MAX)
    requires t < |states[i].threads| && states[i].threads[t].InWait(w)
    requires j < k < |states|
    ensures Released(states[k], t, w)
  {
    var p := states[i].pulses + 1;
    AddOvertakes(states, steps, i, t, w);
    StaysOvertaken(states, steps, t, w, p, i + 1, j + 1);
    RunInv(states, steps, j);
    WakeAllTakesSleepers(states[j], steps[j]);
    assert !SleepsIn(states[j + 1], t, w);
    StaysReleased(states, steps, t, w, p, j + 1, k);
    RunInv(states, steps, k);
    OvertakenIsReleased(states[k], t, w, p);
  }

  /** No signal is lost: if some thread that began its wait before the signal's addition is still in it
      when the signal's wake runs, then that wake takes a sleeper out of the queue, or the thread is
      already released without having slept. */
  lemma SignalReleasesOne(states: seq<Cond>, steps: seq<Step>, i: nat, j: nat, b: nat, t: nat, w: nat, k: nat)
    requires Run(states, steps) && NoWrap(states, steps)
    requires PulseOf(states, steps, i, j, b, 1)
    requires t < |states[i].threads| && states[i].threads[t].InWait(w)
    requires j < k < |states|
    ensures |states[j].threads| == |states[j + 1].threads|
    ensures (exists u :: 0 <= u < |states[j].threads| && states[j].threads[u].Asleep? && states[j + 1].threads[u] == Awake)
         || Released(states[k], t, w)
  {
    var p := states[i].pulses + 1;
    AddOvertakes(states, steps, i, t, w);
    StaysOvertaken(states, steps, t, w, p, i + 1, j);
    RunInv(states, steps, j);
    var s := states[j];
    if s.Sleepers() == {} {
      assert SleepsIn(s, t, w) ==> t in s.Sleepers();
      StaysReleased(states, steps, t, w, p, j, k);
      RunInv(states, steps, k);
      OvertakenIsReleased(states[k], t, w, p);
    } else {
      var x :| x in s.Sleepers();
      SubsetCard({x}, s.Sleepers());
      assert |steps[j].woken| == 1;
      var u :| u in steps[j].woken;
      assert u in s.Sleepers();
      assert states[j + 1].threads[u] == Awake;
    }
  }

  lemma ExtendRun(states: seq<Cond>, steps: seq<Step>, step: Step)
    requires Run(states, steps) && Enabled(states[|steps|], step)
    ensures Run(states + [Apply(states[|steps|], step)], steps + [step])
  {
    var states' := states + [Apply(states[|steps|], step)];
    var steps' := steps + [step];
    forall k | 0 <= k < |steps'|
      ensures Enabled(states'[k], steps'[k]) && states'[k + 1] == Apply(states'[k], steps'[k])
    {
      if k < |steps| {
        assert states'[k] == states[k] && states'[k + 1] == states[k + 1];
      }
    }
  }

  lemma NobodyAsleepAfterAdd(s: Cond, b: nat)
    requires Inv(s) && b < |s.threads| && s.threads[b] == Running && s.Sleepers() == {}
    ensures Enabled(s, Add(b, INT_MAX)) && Apply(s, Add(b, INT_MAX)).Sleepers() == {}
  {
    var mid := Apply(s, Add(b, INT_MAX));
    forall t | t in mid.Sleepers() ensures t in s.Sleepers() {
      assert t != b;
    }
  }

  /** Waking nobody only returns the broadcaster. */
  lemma WakeNobody(s: Cond, b: nat)
    requires b < |s.threads| && s.threads[b].Added? && s.Sleepers() == {}
    ensures Enabled(s, Wake(b, {})) && Apply(s, Wake(b, {})) == s.(threads := s.threads[b := Running])
  {
  }

  /** One complete broadcast with nobody asleep moves the word on by one pulse and changes nothing else. */
  lemma IdleBroadcast(s: Cond, b: nat)
    requires Inv(s) && b < |s.threads| && s.threads[b] == Running && s.Sleepers() == {}
    ensures Enabled(s, Add(b, INT_MAX)) && Enabled(Apply(s, Add(b, INT_MAX)), Wake(b, {}))
    ensures Apply(Apply(s, Add(b, INT_MAX)), Wake(b, {})) ==
      s.(word := WordAt(s.flags, s.pulses + 1), pulses := s.pulses + 1)
  {
    NobodyAsleepAfterAdd(s, b);
    WakeNobody(Apply(s, Add(b, INT_MAX)), b);
    WordAfterAdd(s.flags, s.pulses);
    assert s.threads[b := Added(s.pulses + 1, INT_MAX)][b := Running] == s.threads;
  }

  /** One more complete broadcast at the end of a run. */
  lemma OneBroadcast(states: seq<Cond>, steps: seq<Step>, b: nat) returns (states': seq<Cond>, steps': seq<Step>)
    requires Run(states, steps)
    requires var last := states[|steps|]; b < |last.threads| && last.threads[b] == Running && last.Sleepers() == {}
    ensures Run(states', steps') && states'[0] == states[0] && steps' == steps + [Add(b, INT_MAX), Wake(b, {})]
    ensures var last := states[|steps|];
      states'[|steps'|] == last.(word := WordAt(last.flags, last.pulses + 1), pulses := last.pulses + 1)
  {
    var last := states[|steps|];
    RunInv(states, steps, |steps|);
    IdleBroadcast(last, b);
    var mid := Apply(last, Add(b, INT_MAX));
    ExtendRun(states, steps, Add(b, INT_MAX));
    ExtendRun(states + [mid], steps + [Add(b, INT_MAX)], Wake(b, {}));
    states' := states + [mid] + [Apply(mid, Wake(b, {}))];
    steps' := steps + [Add(b, INT_MAX)] + [Wake(b, {})];
  }

  /** The steps are complete broadcasts by `b` that find nobody asleep. */
  predicate BroadcastsBy(steps: seq<Step>, b: nat) {
    |steps| % 2 == 0 && forall k :: 0 <= k < |steps| ==> steps[k] == if k % 2 == 0 then Add(b, INT_MAX) else Wake(b, {})
  }

  lemma OneMoreBy(steps: seq<Step>, b: nat)
    requires BroadcastsBy(steps, b)
    ensures BroadcastsBy(steps + [Add(b, INT_MAX)] + [Wake(b, {})], b)
  {
  }

  /** `n` complete broadcasts by `b`, with nobody asleep. */
  lemma {:induction false} PulseRun(s: Cond, b: nat, n: nat) returns (states: seq<Cond>, steps: seq<Step>)
    requires Inv(s) && b < |s.threads| && s.threads[b] == Running && s.Sleepers() == {}
    ensures Run(states, steps) && states[0] == s && |steps| == 2 * n && BroadcastsBy(steps, b)
    ensures states[|steps|] == s.(word := WordAt(s.flags, s.pulses + n), pulses := s.pulses + n)
  {
    if n == 0 {
      states, steps := [s], [];
    } else {
      states, steps := PulseRun(s, b, n - 1);
      assert states[|steps|].Sleepers() == s.Sleepers();
      OneMoreBy(steps, b);
      states, steps := OneBroadcast(states, steps, b);
    }
  }

  /** The bound is needed: from any state with a thread between unlock and compare and another one free
      to broadcast, 2^30 complete broadcasts bring the word back and the thread goes to sleep after
      all of them. */
  lemma FullTurnLosesBroadcasts(s: Cond, t: nat, b: nat) returns (states: seq<Cond>, steps: seq<Step>)
    requires Inv(s) && s.Sleepers() == {}
    requires t < |s.threads| && s.threads[t].Unlocked? && s.threads[t].at == s.pulses
    requires b < |s.threads| && s.threads[b] == Running
    ensures Run(states, steps) && states[0] == s && |steps| == 2 * COUNTER_RANGE + 1
    ensures BroadcastsBy(steps[..2 * COUNTER_RANGE], b)
    ensures SleepsIn(states[|steps|], t, s.threads[t].id)
  {
    assert ThreadOk(s, t);
    states, steps := PulseRun(s, b, COUNTER_RANGE);
    var last := states[|steps|];
    WordRepeats(s.flags, s.pulses, last.pulses);
    ExtendRun(states, steps, Compare(t));
    assert (steps + [Compare(t)])[..2 * COUNTER_RANGE] == steps;
    states, steps := states + [Apply(last, Compare(t))], steps + [Compare(t)];
  }
}
