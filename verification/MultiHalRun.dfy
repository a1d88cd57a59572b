/**
 Every interleaving of the sub-HAL writer threads and the poll thread of the multi-HAL
 (writerTask and poll in sensors/multihal.cpp, waitForSpace in sensors/SensorEventQueue.cpp).
 A step is one critical section, one store of a sub-HAL into its granted region, or one return of a
 sub-HAL's poll. A condition wait releases the lock and sleeps; it may return when notified or
 spuriously, and re-checks its predicate under the lock.
 */
module MultiHalRun {
  import opened Basics
  import opened SensorQueue
  import opened MultiHal

  datatype WriterPc =
    | Idle
    | AwaitingSpace(notified: bool)
    | Filling(first: nat, len: nat)
    | Filled(first: nat, n: nat)

  datatype PollerPc =
    | NotPolling
    | AwaitingData(notified: bool, maxReads: int)

  /** `polled[i]` is everything sub-HAL `i` returned, `consumed` everything taken from the queues in
      order, `upstream` everything poll passed to its callers. */
  datatype Hal = Hal(
    queues: seq<Ring<Event>>, nextRead: nat, writers: seq<WriterPc>, poller: PollerPc, waitingForData: bool,
    polled: seq<seq<Event>>, consumed: Trace, upstream: seq<Event>)

  datatype HalStep =
    | LockForSpace(i: nat, first: nat, len: nat)
    | Store(i: nat, k: nat, e: Event)
    | SubPollReturns(i: nat, n: nat)
    | SubPollFails(i: nat)
    | CommitBatch(i: nat)
    | PollScan(maxReads: int, after: seq<Ring<Event>>, t: Trace, turns: Turns, out: seq<Event>)

  ghost predicate Enabled(h: Handles, s: Hal, step: HalStep) {
    match step
    case LockForSpace(i, first, len) =>
      && i < |s.queues| && i < |s.writers| && (s.writers[i].Idle? || s.writers[i].AwaitingSpace?)
      && (s.queues[i].size < |s.queues[i].slots| ==> 0 < len && Writable(s.queues[i], first, len))
    case Store(i, k, _) =>
      && i < |s.queues| && i < |s.writers| && s.writers[i].Filling?
      && k < s.writers[i].len && s.writers[i].first + k < |s.queues[i].slots|
    case SubPollReturns(i, n) =>
      && i < |s.queues| && i < |s.writers| && i < |s.polled| && s.writers[i].Filling?
      && 0 < n <= s.writers[i].len && s.writers[i].first + n <= |s.queues[i].slots|
    case SubPollFails(i) =>
      i < |s.writers| && s.writers[i].Filling?
    case CommitBatch(i) =>
      i < |s.queues| && i < |s.writers| && s.writers[i].Filled?
    case PollScan(maxReads, after, t, turns, out) =>
      && 0 < maxReads
      && (s.poller.AwaitingData? ==> maxReads == s.poller.maxReads)
      && turns.origin == s.nextRead && ScanOutcome(h, s.queues, after, t, turns, out, maxReads)
  }

  /** A dequeue from a full queue broadcasts that queue's space-available condition. */
  ghost function WakeWriters(s: Hal, t: Trace): seq<WriterPc>
    requires |s.writers| <= |s.queues|
  {
    seq(|s.writers|, i requires 0 <= i < |s.writers| =>
      if s.writers[i].AwaitingSpace? && s.queues[i].size == |s.queues[i].slots| && Proj(t, i) != []
      then AwaitingSpace(true) else s.writers[i])
  }

  ghost function Apply(h: Handles, s: Hal, step: HalStep): Hal
    requires Enabled(h, s, step) && |s.writers| <= |s.queues|
  {
    match step
    case LockForSpace(i, first, len) =>
      s.(writers := s.writers[i := if s.queues[i].size < |s.queues[i].slots| then Filling(first, len)
                                   else AwaitingSpace(false)])
    case Store(i, k, e) =>
      s.(queues := s.queues[i := s.queues[i].(slots := s.queues[i].slots[s.writers[i].first + k := e])])
    case SubPollReturns(i, n) =>
      var w := s.writers[i];
      s.(writers := s.writers[i := Filled(w.first, n)],
         polled := s.polled[i := s.polled[i] + s.queues[i].slots[w.first..w.first + n]])
    case SubPollFails(i) =>
      s.(writers := s.writers[i := Idle])
    case CommitBatch(i) =>
      s.(queues := s.queues[i := s.queues[i].Committed(s.writers[i].n)],
         writers := s.writers[i := Idle],
         poller := if s.waitingForData && s.poller.AwaitingData? then s.poller.(notified := true) else s.poller)
    case PollScan(maxReads, after, t, turns, out) =>
      s.(queues := after, nextRead := turns.next,
         writers := WakeWriters(s, t),
         poller := if out == [] then AwaitingData(false, maxReads) else NotPolling,
         waitingForData := out == [],
         consumed := s.consumed + t,
         upstream := s.upstream + out)
  }

  /** Events a sub-HAL returned and its writer has not committed yet. */
  function Uncommitted(q: Ring<Event>, w: WriterPc): seq<Event> {
    if w.Filled? && w.first + w.n <= |q.slots| then q.slots[w.first..w.first + w.n] else []
  }

  /** One queue with its writer and its share of the history. */
  ghost predicate QueueInv(q: Ring<Event>, w: WriterPc, polled: seq<Event>, taken: seq<Event>) {
    && q.Ok()
    && (w.Filling? ==> Writable(q, w.first, w.len))
    && (w.Filled? ==> Writable(q, w.first, w.n))
    && (w.AwaitingSpace? && !w.notified ==> q.size == |q.slots|)
    && polled == taken + q.Readable() + Uncommitted(q, w)
  }

  ghost predicate Inv(h: Handles, s: Hal) {
    && |s.queues| == |s.writers| == |s.polled| && (0 < |s.queues| ==> s.nextRead < |s.queues|)
    && (forall i :: 0 <= i < |s.queues| ==>
          QueueInv(s.queues[i], s.writers[i], s.polled[i], Proj(s.consumed, i)))
    && (forall k :: 0 <= k < |s.consumed| ==> s.consumed[k].0 < |s.queues|)
    && s.upstream == Emit(h, s.consumed)
    && s.waitingForData == s.poller.AwaitingData?
    && (s.poller.AwaitingData? ==> 0 < s.poller.maxReads)
    && (s.poller.AwaitingData? && !s.poller.notified ==> AllEmpty(s.queues))
  }

  lemma StoreKeepsQueue(q: Ring<Event>, w: WriterPc, polled: seq<Event>, taken: seq<Event>, k: nat, e: Event)
    requires QueueInv(q, w, polled, taken) && w.Filling? && k < w.len
    ensures QueueInv(q.(slots := q.slots[w.first + k := e]), w, polled, taken)
  {
    FillInvisible(q, w.first, w.len, k, e);
  }

  lemma CommitKeepsQueue(q: Ring<Event>, w: WriterPc, polled: seq<Event>, taken: seq<Event>)
    requires QueueInv(q, w, polled, taken) && w.Filled?
    ensures QueueInv(q.Committed(w.n), Idle, polled, taken)
  {
    CommitAppends(q, w.first, w.n);
  }

  lemma HistoryMoves<T>(taken: seq<T>, readable: seq<T>, more: seq<T>, rest: seq<T>, tail: seq<T>)
    requires |more| <= |readable| && more == readable[..|more|] && rest == readable[|more|..]
    ensures taken + readable + tail == taken + more + rest + tail
  {
    assert readable == more + rest;
    Regroup(taken, more, rest);
  }

  lemma ScanKeepsQueue(q: Ring<Event>, w: WriterPc, polled: seq<Event>, taken: seq<Event>, more: seq<Event>)
    requires QueueInv(q, w, polled, taken) && |more| <= q.size && more == q.Readable()[..|more|]
    ensures
      var w' := if w.AwaitingSpace? && q.size == |q.slots| && more != [] then AwaitingSpace(true) else w;
      QueueInv(Consumed(q, |more|), w', polled, taken + more)
  {
    var q' := Consumed(q, |more|);
    var w' := if w.AwaitingSpace? && q.size == |q.slots| && more != [] then AwaitingSpace(true) else w;
    if w.Filling? {
      ConsumedWritable(q, |more|, w.first, w.len);
    } else if w.Filled? {
      ConsumedWritable(q, |more|, w.first, w.n);
    }
    ConsumedReadable(q, |more|);
    assert Uncommitted(q', w') == Uncommitted(q, w);
    HistoryMoves(taken, q.Readable(), more, q'.Readable(), Uncommitted(q, w));
  }

  lemma ScanKeepsInv(h: Handles, s: Hal, step: HalStep)
    requires Inv(h, s) && Enabled(h, s, step) && step.PollScan?
    ensures Inv(h, Apply(h, s, step))
  {
    var s', t := Apply(h, s, step), step.t;
    EmitConcat(h, s.consumed, t);
    forall i | 0 <= i < |s.queues|
      ensures QueueInv(s'.queues[i], s'.writers[i], s'.polled[i], Proj(s'.consumed, i))
    {
      ProjConcat(s.consumed, t, i);
      ScanKeepsQueue(s.queues[i], s.writers[i], s.polled[i], Proj(s.consumed, i), Proj(t, i));
    }
  }

  /** A step of writer `i` changes one queue, one writer and that sub-HAL's history; what the poller waits
      for must still hold. */
  lemma OneWriterInv(h: Handles, s: Hal, s': Hal, i: nat, q: Ring<Event>, w: WriterPc, polled: seq<Event>)
    requires Inv(h, s) && i < |s.queues|
    requires s'.nextRead == s.nextRead && s'.queues == s.queues[i := q] && s'.writers == s.writers[i := w] && s'.polled == s.polled[i := polled]
    requires s'.consumed == s.consumed && s'.upstream == s.upstream && s'.waitingForData == s.waitingForData
    requires QueueInv(q, w, polled, Proj(s.consumed, i))
    requires s'.poller.AwaitingData? == s.poller.AwaitingData? && (s.poller.AwaitingData? ==> s'.poller.maxReads == s.poller.maxReads)
    requires s'.poller.AwaitingData? && !s'.poller.notified ==> !s.poller.notified && q.size == s.queues[i].size
    ensures Inv(h, s')
  {
    forall j | 0 <= j < |s'.queues|
      ensures QueueInv(s'.queues[j], s'.writers[j], s'.polled[j], Proj(s'.consumed, j))
    {
      assert j != i ==> QueueInv(s.queues[j], s.writers[j], s.polled[j], Proj(s.consumed, j));
    }
  }

  lemma LockKeepsInv(h: Handles, s: Hal, step: HalStep)
    requires Inv(h, s) && Enabled(h, s, step) && step.LockForSpace?
    ensures Inv(h, Apply(h, s, step))
  {
    var s', i := Apply(h, s, step), step.i;
    assert QueueInv(s.queues[i], s.writers[i], s.polled[i], Proj(s.consumed, i));
    assert s'.queues == s.queues[i := s.queues[i]] && s'.polled == s.polled[i := s.polled[i]];
    OneWriterInv(h, s, s', i, s.queues[i], s'.writers[i], s.polled[i]);
  }

  lemma StoreKeepsInv(h: Handles, s: Hal, step: HalStep)
    requires Inv(h, s) && Enabled(h, s, step) && step.Store?
    ensures Inv(h, Apply(h, s, step))
  {
    var s', i := Apply(h, s, step), step.i;
    assert QueueInv(s.queues[i], s.writers[i], s.polled[i], Proj(s.consumed, i));
    StoreKeepsQueue(s.queues[i], s.writers[i], s.polled[i], Proj(s.consumed, i), step.k, step.e);
    assert s'.writers == s.writers[i := s.writers[i]] && s'.polled == s.polled[i := s.polled[i]];
    OneWriterInv(h, s, s', i, s'.queues[i], s.writers[i], s.polled[i]);
  }

  lemma SubPollKeepsInv(h: Handles, s: Hal, step: HalStep)
    requires Inv(h, s) && Enabled(h, s, step) && (step.SubPollReturns? || step.SubPollFails?)
    ensures Inv(h, Apply(h, s, step))
  {
    var s', i := Apply(h, s, step), step.i;
    assert QueueInv(s.queues[i], s.writers[i], s.polled[i], Proj(s.consumed, i));
    assert s'.queues == s.queues[i := s.queues[i]] && s'.polled == s.polled[i := s'.polled[i]];
    OneWriterInv(h, s, s', i, s.queues[i], s'.writers[i], s'.polled[i]);
  }

  lemma CommitKeepsInv(h: Handles, s: Hal, step: HalStep)
    requires Inv(h, s) && Enabled(h, s, step) && step.CommitBatch?
    ensures Inv(h, Apply(h, s, step))
  {
    var s', i := Apply(h, s, step), step.i;
    assert QueueInv(s.queues[i], s.writers[i], s.polled[i], Proj(s.consumed, i));
    CommitKeepsQueue(s.queues[i], s.writers[i], s.polled[i], Proj(s.consumed, i));
    assert s'.polled == s.polled[i := s.polled[i]];
    OneWriterInv(h, s, s', i, s'.queues[i], Idle, s.polled[i]);
  }

  lemma StepKeepsInv(h: Handles, s: Hal, step: HalStep)
    requires Inv(h, s) && Enabled(h, s, step)
    ensures Inv(h, Apply(h, s, step))
  {
    match step
    case LockForSpace(_, _, _) => LockKeepsInv(h, s, step);
    case Store(_, _, _) => StoreKeepsInv(h, s, step);
    case SubPollReturns(_, _) => SubPollKeepsInv(h, s, step);
    case SubPollFails(_) => SubPollKeepsInv(h, s, step);
    case CommitBatch(_) => CommitKeepsInv(h, s, step);
    case PollScan(_, _, _, _, _) => ScanKeepsInv(h, s, step);
  }

  /** Empty queues of positive capacity, no thread inside its protocol. */
  ghost predicate Init(s: Hal) {
    && |s.queues| == |s.writers| == |s.polled|
    && (forall i :: 0 <= i < |s.queues| ==>
          s.queues[i].Ok() && s.queues[i].size == 0 && 0 < |s.queues[i].slots|
          && s.writers[i] == Idle && s.polled[i] == [])
    && s.nextRead == 0 && s.poller == NotPolling && !s.waitingForData && s.consumed == [] && s.upstream == []
  }

  ghost predicate Run(h: Handles, states: seq<Hal>, steps: seq<HalStep>) {
    && |states| == |steps| + 1
    && Init(states[0])
    && forall k :: 0 <= k < |steps| ==>
         Enabled(h, states[k], steps[k]) && |states[k].writers| <= |states[k].queues|
         && states[k + 1] == Apply(h, states[k], steps[k])
  }

  lemma StepKeepsSlots(h: Handles, s: Hal, step: HalStep)
    requires Inv(h, s) && Enabled(h, s, step)
    ensures var s' := Apply(h, s, step);
      |s'.queues| == |s.queues| && forall i :: 0 <= i < |s'.queues| ==> |s'.queues[i].slots| == |s.queues[i].slots|
  {
  }

  lemma {:induction false} RunInv(h: Handles, states: seq<Hal>, steps: seq<HalStep>, k: nat)
    requires Run(h, states, steps) && k < |states|
    ensures Inv(h, states[k])
    ensures |states[k].queues| == |states[0].queues|
    ensures forall i :: 0 <= i < |states[k].queues| ==> 0 < |states[k].queues[i].slots|
  {
    if k > 0 {
      RunInv(h, states, steps, k - 1);
      StepKeepsInv(h, states[k - 1], steps[k - 1]);
      StepKeepsSlots(h, states[k - 1], steps[k - 1]);
    }
  }

  /** Wake-up safety: a poll that sleeps with no notification pending faces only empty queues, a
      writer that sleeps with no notification pending faces a full queue, and the two never happen
      together, so the system cannot wedge with both sides waiting for each other. */
  lemma NoMissedWakeup(h: Handles, states: seq<Hal>, steps: seq<HalStep>, k: nat)
    requires Run(h, states, steps) && k < |states|
    ensures
      var s := states[k];
      && (s.poller.AwaitingData? && !s.poller.notified ==> AllEmpty(s.queues))
      && |s.writers| == |s.queues|
      && (forall i :: 0 <= i < |s.writers| && s.writers[i].AwaitingSpace? && !s.writers[i].notified ==>
            s.queues[i].size == |s.queues[i].slots|)
      && !(s.poller.AwaitingData? && !s.poller.notified
           && exists i :: 0 <= i < |s.writers| && s.writers[i].AwaitingSpace? && !s.writers[i].notified)
  {
    RunInv(h, states, steps, k);
  }

  /** End to end: what poll has handed upstream is an interleaving of the sub-HALs' outputs with bad
      handles dropped and the rest remapped; each sub-HAL's share of it is a prefix, in order, of
      what that sub-HAL returned, and the remainder is still queued or uncommitted. */
  lemma UpstreamIsMergeOfSubHals(h: Handles, states: seq<Hal>, steps: seq<HalStep>, k: nat, i: nat)
    requires Run(h, states, steps) && k < |states| && i < |states[k].queues|
    ensures
      var s := states[k];
      && s.upstream == Emit(h, s.consumed)
      && i < |s.polled| && i < |s.writers| && s.queues[i].Ok()
      && s.polled[i] == Proj(s.consumed, i) + s.queues[i].Readable() + Uncommitted(s.queues[i], s.writers[i])
      && Proj(s.consumed, i) <= s.polled[i]
  {
    RunInv(h, states, steps, k);
  }

  /** Over the maps that registering `fs` left, in every reachable state: what poll handed upstream is, in
      order, the translation of every consumed event that is not bad, and each of them names its sensor so
      that a command for it goes back to the sub-HAL and the local handle the event came from. */
  lemma UpstreamNamesSensors(fs: seq<FullHandle>, states: seq<Hal>, steps: seq<HalStep>, k: nat) returns (at: seq<nat>)
    requires Run(Registered(fs), states, steps) && k < |states|
    ensures TranslatesAt(fs, states[k].consumed, states[k].upstream, at)
    ensures forall j :: 0 <= j < |at| ==> LeadsBack(fs, states[k].consumed[at[j]], states[k].upstream[j])
  {
    var s := states[k];
    RunInv(Registered(fs), states, steps, k);
    EmitTranslates(fs, s.consumed);
    at :| TranslatesAt(fs, s.consumed, s.upstream, at);
    forall j | 0 <= j < |at| ensures LeadsBack(fs, s.consumed[at[j]], s.upstream[j]) {
      var taken, o := s.consumed[at[j]], s.upstream[j];
      if taken.1.kind == META_DATA {
        MetaLeadsBack(fs, taken.0, taken.1, o);
      } else {
        TranslatedLeadsBack(fs, taken.0, taken.1, o);
      }
    }
  }

  /** The sensor that the event names upstream leads back to where the event was taken from. */
  ghost predicate LeadsBack(fs: seq<FullHandle>, taken: (nat, Event), o: Event) {
    var e, h := taken.1, Registered(fs);
    var g := if e.kind == META_DATA then o.metaSensor else o.sensor;
    var local := if e.kind == META_DATA then e.metaSensor else e.sensor;
    if FullHandle(taken.0, local) in fs then h.ModuleIndex(g) == taken.0 && h.LocalHandle(g) == local
    else e.kind == META_DATA && g == -1
  }

  // ---------------------------------------------------------------------------------------------
  // Fairness over many polls
  // ---------------------------------------------------------------------------------------------

  function TakenBy(step: HalStep): Trace {
    if step.PollScan? then step.t else []
  }

  /** What the scans among steps `a` to `b` took from the queues. */
  ghost function Taken(steps: seq<HalStep>, a: nat, b: nat): Trace
    requires a <= b <= |steps|
  {
    if a == b then [] else Taken(steps, a, b - 1) + TakenBy(steps[b - 1])
  }

  /** What a step means for the order in which queues are served. */
  ghost predicate Serves(s: Hal, step: HalStep, s': Hal, n: nat) {
    && |s'.queues| == n && (0 < n ==> s.nextRead < n && s'.nextRead < n)
    && s'.consumed == s.consumed + TakenBy(step)
    && (if step.PollScan?
        then step.turns.origin == s.nextRead && s'.nextRead == step.turns.next && s'.queues == step.after
          && TookTurns(step.after, step.t, step.turns)
        else s'.nextRead == s.nextRead)
  }

  lemma StepServes(h: Handles, s: Hal, step: HalStep)
    requires Inv(h, s) && Enabled(h, s, step)
    ensures Serves(s, step, Apply(h, s, step), |s.queues|)
  {
    StepKeepsInv(h, s, step);
    StepKeepsSlots(h, s, step);
    if !step.PollScan? {
      assert s.consumed + [] == s.consumed;
    }
  }

  ghost predicate Service(states: seq<Hal>, steps: seq<HalStep>, n: nat) {
    |states| == |steps| + 1 && forall k :: 0 <= k < |steps| ==> Serves(states[k], steps[k], states[k + 1], n)
  }

  lemma RunIsService(h: Handles, states: seq<Hal>, steps: seq<HalStep>)
    requires Run(h, states, steps)
    ensures Service(states, steps, |states[0].queues|)
  {
    forall k | 0 <= k < |steps| ensures Serves(states[k], steps[k], states[k + 1], |states[0].queues|) {
      RunInv(h, states, steps, k);
      StepServes(h, states[k], steps[k]);
    }
  }

  lemma {:induction false} ConsumedIsTaken(states: seq<Hal>, steps: seq<HalStep>, n: nat, a: nat, b: nat)
    requires Service(states, steps, n) && a <= b < |states|
    ensures states[b].consumed == states[a].consumed + Taken(steps, a, b)
  {
    if a < b {
      ConsumedIsTaken(states, steps, n, a, b - 1);
      assert Serves(states[b - 1], steps[b - 1], states[b], n);
    }
  }

  /** Queue `i` still holds events after every scan among the steps. */
  ghost predicate NeverEmptied(states: seq<Hal>, steps: seq<HalStep>, a: nat, b: nat, i: nat)
    requires a <= b < |states| == |steps| + 1
  {
    forall k :: a <= k < b && steps[k].PollScan? ==> i < |states[k + 1].queues| && 0 < states[k + 1].queues[i].size
  }

  /** How often the queues were served, if `c` are the visits of all the scans together. */
  ghost predicate ServedBy(n: nat, taken: Trace, c: Turns, i: nat, j: nat) {
    && c.origin < n && c.pos < n && i < n && j < n && c.next == Place(n, c.origin, c.pos)
    && |Proj(taken, i)| == Visits(n, c.origin, c.round, c.pos, i)
    && |Proj(taken, j)| <= Visits(n, c.origin, c.round, c.pos, j)
  }

  lemma ServedByJoined(n: nat, taken: Trace, c: Turns, after: seq<Ring<Event>>, t: Trace, turns: Turns, i: nat, j: nat)
    requires |after| == n && ServedBy(n, taken, c, i, j) && TookTurns(after, t, turns)
    requires turns.origin == c.next && 0 < after[i].size
    ensures ServedBy(n, taken + t, Joined(n, c, turns), i, j)
  {
    VisitsAdd(n, c, turns, i);
    VisitsAdd(n, c, turns, j);
    ProjConcat(taken, t, i);
    ProjConcat(taken, t, j);
  }

  lemma {:induction false} ScansTakeTurns(states: seq<Hal>, steps: seq<HalStep>, n: nat, a: nat, b: nat, i: nat, j: nat)
    returns (c: Turns)
    requires Service(states, steps, n) && a <= b < |states| && i < n && j < n && states[a].nextRead < n
    requires NeverEmptied(states, steps, a, b, i)
    ensures ServedBy(n, Taken(steps, a, b), c, i, j) && c.next == states[b].nextRead
  {
    if a == b {
      c := Turns(states[a].nextRead, 0, 0, states[a].nextRead);
    } else {
      c := ScansTakeTurns(states, steps, n, a, b - 1, i, j);
      var step, before := steps[b - 1], Taken(steps, a, b - 1);
      assert Serves(states[b - 1], step, states[b], n);
      if step.PollScan? {
        ServedByJoined(n, before, c, step.after, step.t, step.turns, i, j);
        c := Joined(n, c, step.turns);
      } else {
        assert before + [] == before;
      }
    }
  }

  /** No queue starves over any number of polls, however few events each of them may return: while a queue
      still holds events after every scan, no other one is served more than once more often than it. */
  lemma NoStarvation(h: Handles, states: seq<Hal>, steps: seq<HalStep>, a: nat, b: nat, i: nat, j: nat)
    requires Run(h, states, steps) && a <= b < |states| && i < |states[0].queues| && j < |states[0].queues|
    requires NeverEmptied(states, steps, a, b, i)
    ensures states[b].consumed == states[a].consumed + Taken(steps, a, b)
    ensures |Proj(Taken(steps, a, b), j)| <= |Proj(Taken(steps, a, b), i)| + 1
  {
    RunInv(h, states, steps, a);
    RunIsService(h, states, steps);
    ConsumedIsTaken(states, steps, |states[0].queues|, a, b);
    var c := ScansTakeTurns(states, steps, |states[0].queues|, a, b, i, j);
  }

  // ---------------------------------------------------------------------------------------------
  // What each call does
  // ---------------------------------------------------------------------------------------------

  /** A poll returns only with an event and with no more than it was asked for; without one it waits, with
      the flag raised that makes a writer wake it. */
  lemma PollReturnsEvents(h: Handles, states: seq<Hal>, steps: seq<HalStep>, k: nat)
    requires Run(h, states, steps) && k < |steps|
    ensures PollOutcome(states[k], steps[k], states[k + 1])
  {
    RunInv(h, states, steps, k);
    StepOfPoll(h, states[k], steps[k]);
  }

  ghost predicate PollOutcome(s: Hal, step: HalStep, s': Hal) {
    && s.upstream <= s'.upstream && s'.waitingForData == s'.poller.AwaitingData?
    && var more := |s'.upstream| - |s.upstream|;
       if step.PollScan?
       then (s'.poller.NotPolling? ==> 0 < more <= step.maxReads) && (s'.poller.AwaitingData? ==> more == 0)
       else more == 0 && s'.poller.NotPolling? == s.poller.NotPolling?
  }

  lemma StepOfPoll(h: Handles, s: Hal, step: HalStep)
    requires Inv(h, s) && Enabled(h, s, step)
    ensures PollOutcome(s, step, Apply(h, s, step))
  {
  }

  predicate EndsPoll(step: HalStep, i: nat) {
    (step.SubPollReturns? || step.SubPollFails?) && step.i == i
  }

  /** What a step means for the region that writer `i` fills. */
  ghost predicate Grants(s: Hal, step: HalStep, s': Hal, i: nat) {
    && (i < |s'.writers| && s'.writers[i].Filling? ==>
          if step.LockForSpace? && step.i == i then s'.writers[i] == Filling(step.first, step.len)
          else !EndsPoll(step, i) && i < |s.writers| && s.writers[i] == s'.writers[i])
    && (EndsPoll(step, i) ==> i < |s.writers| && s.writers[i].Filling?)
  }

  lemma StepGrants(h: Handles, s: Hal, step: HalStep, i: nat)
    requires Inv(h, s) && Enabled(h, s, step)
    ensures Grants(s, step, Apply(h, s, step), i)
  {
  }

  ghost predicate Granting(states: seq<Hal>, steps: seq<HalStep>, i: nat) {
    && |states| == |steps| + 1 && (i < |states[0].writers| ==> !states[0].writers[i].Filling?)
    && forall k :: 0 <= k < |steps| ==> Grants(states[k], steps[k], states[k + 1], i)
  }

  lemma RunIsGranting(h: Handles, states: seq<Hal>, steps: seq<HalStep>, i: nat)
    requires Run(h, states, steps)
    ensures Granting(states, steps, i)
  {
    forall k | 0 <= k < |steps| ensures Grants(states[k], steps[k], states[k + 1], i) {
      RunInv(h, states, steps, k);
      StepGrants(h, states[k], steps[k], i);
    }
  }

  /** Step `j` granted writer `i` the region it fills in state `k`, and no call of its sub-HAL has ended since. */
  ghost predicate GrantedAt(states: seq<Hal>, steps: seq<HalStep>, i: nat, j: nat, k: nat)
    requires k < |states| == |steps| + 1
  {
    && j < k && steps[j].LockForSpace? && steps[j].i == i && i < |states[k].writers|
    && states[k].writers[i] == Filling(steps[j].first, steps[j].len)
    && forall m :: j < m < k ==> !EndsPoll(steps[m], i)
  }

  lemma {:induction false} FillingWasGranted(states: seq<Hal>, steps: seq<HalStep>, k: nat, i: nat) returns (j: nat)
    requires Granting(states, steps, i) && k < |states| && i < |states[k].writers| && states[k].writers[i].Filling?
    ensures GrantedAt(states, steps, i, j, k)
  {
    assert Grants(states[k - 1], steps[k - 1], states[k], i);
    if steps[k - 1].LockForSpace? && steps[k - 1].i == i {
      j := k - 1;
    } else {
      j := FillingWasGranted(states, steps, k - 1, i);
    }
  }

  /** Every call of a sub-HAL's poll gets a region of its own: between the ends of two of them, successful or
      not, the writer has reserved again. */
  lemma EachPollHasItsRegion(h: Handles, states: seq<Hal>, steps: seq<HalStep>, a: nat, b: nat, i: nat) returns (j: nat)
    requires Run(h, states, steps) && a < b < |steps| && EndsPoll(steps[a], i) && EndsPoll(steps[b], i)
    ensures a < j < b && GrantedAt(states, steps, i, j, b)
  {
    RunIsGranting(h, states, steps, i);
    assert Grants(states[b], steps[b], states[b + 1], i);
    j := FillingWasGranted(states, steps, b, i);
  }
}
