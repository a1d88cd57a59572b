/**
 The sensor multi-HAL (sensors/multihal.cpp): global handles for the sensors of every sub-HAL, the
 round-robin scan inside `poll`, and the protocol between one writer thread per sub-HAL and the
 single poll thread. All shared accesses except the unlocked fill happen under one mutex, so a
 critical section is one atomic step.
 */
module MultiHal {
  import opened Division
  import opened SensorQueue

  // ---------------------------------------------------------------------------------------------
  // Handles
  // ---------------------------------------------------------------------------------------------

  /** A sensor, identified by the index of its sub-module and the handle that module gave it. */
  datatype FullHandle = FullHandle(moduleIndex: int, localHandle: int)

  datatype Handles = Handles(fullToGlobal: map<FullHandle, int>, globalToFull: map<int, FullHandle>, next: int) {

    function Assign(f: FullHandle): Handles {
      Handles(fullToGlobal[f := next], globalToFull[next := f], next + 1)
    }

    /** The global handle of a sensor, or -1 when it is not registered. */
    function Global(f: FullHandle): int {
      if f in fullToGlobal then fullToGlobal[f] else -1
    }

    /** The sub-module and the handle inside it behind a global handle, or -1. */
    function ModuleIndex(g: int): int {
      if g in globalToFull then globalToFull[g].moduleIndex else -1
    }

    function LocalHandle(g: int): int {
      if g in globalToFull then globalToFull[g].localHandle else -1
    }
  }

  const NO_HANDLES := Handles(map[], map[], 1)

  /** The two global maps and the counter behind them. */
  class HandleTable {
    var maps: Handles

    constructor ()
      ensures maps == NO_HANDLES
    {
      maps := NO_HANDLES;
    }

    method AssignGlobalHandle(moduleIndex: int, localHandle: int) returns (global: int)
      modifies this
      ensures maps == old(maps).Assign(FullHandle(moduleIndex, localHandle))
      ensures global == old(maps).next
    {
      global := maps.next;
      var full := FullHandle(moduleIndex, localHandle);
      maps := maps.(next := maps.next + 1);
      maps := maps.(fullToGlobal := maps.fullToGlobal[full := global]);
      maps := maps.(globalToFull := maps.globalToFull[global := full]);
    }
  }

  /** The tables after registering the sensors `fs` in order. */
  function Registered(fs: seq<FullHandle>): Handles {
    if fs == [] then NO_HANDLES else Registered(fs[..|fs| - 1]).Assign(fs[|fs| - 1])
  }

  ghost predicate MutualInverses(h: Handles) {
    && (forall g :: g in h.globalToFull ==> h.Global(h.globalToFull[g]) == g)
    && (forall f :: f in h.fullToGlobal ==>
          h.fullToGlobal[f] in h.globalToFull && h.globalToFull[h.fullToGlobal[f]] == f)
  }

  ghost predicate Distinct<T>(s: seq<T>) {
    forall i, j :: 0 <= i < j < |s| ==> s[i] != s[j]
  }

  /** `g` counts up to the last registration of `f`. */
  ghost predicate NamesLast(fs: seq<FullHandle>, g: int, f: FullHandle) {
    1 <= g <= |fs| && fs[g - 1] == f && f !in fs[g..]
  }

  lemma NamesLastStays(fs: seq<FullHandle>, g: int, f: FullHandle, more: FullHandle)
    requires NamesLast(fs, g, f) && f != more
    ensures NamesLast(fs + [more], g, f)
  {
    assert (fs + [more])[g..] == fs[g..] + [more];
  }

  /** Global handle `g` names the `g`-th registered sensor, and a sensor's global handle is that of
      its last registration. */
  lemma {:induction false} RegisteredMaps(fs: seq<FullHandle>)
    ensures Registered(fs).next == |fs| + 1
    ensures forall g :: g in Registered(fs).globalToFull <==> 1 <= g <= |fs|
    ensures forall g :: 1 <= g <= |fs| ==> Registered(fs).globalToFull[g] == fs[g - 1]
    ensures forall f :: f in Registered(fs).fullToGlobal <==> f in fs
    ensures forall f :: f in fs ==> NamesLast(fs, Registered(fs).fullToGlobal[f], f)
  {
    if fs != [] {
      var n := |fs| - 1;
      var init, h, h' := fs[..n], Registered(fs[..n]), Registered(fs);
      RegisteredMaps(init);
      assert fs == init + [fs[n]];
      forall f | f in fs ensures NamesLast(fs, h'.fullToGlobal[f], f) {
        if f != fs[n] {
          assert NamesLast(init, h.fullToGlobal[f], f);
          NamesLastStays(init, h.fullToGlobal[f], f, fs[n]);
        }
      }
    }
  }

  /** The two maps are mutual inverses exactly when no sensor is registered twice. */
  lemma MapsInverseIffDistinct(fs: seq<FullHandle>)
    ensures MutualInverses(Registered(fs)) <==> Distinct(fs)
  {
    RegisteredMaps(fs);
    var h := Registered(fs);
    if MutualInverses(h) {
      forall i, j | 0 <= i < j < |fs| ensures fs[i] != fs[j] {
        assert h.Global(h.globalToFull[i + 1]) == i + 1;
        assert h.Global(h.globalToFull[j + 1]) == j + 1;
      }
    }
    if Distinct(fs) {
      forall g | g in h.globalToFull ensures h.Global(h.globalToFull[g]) == g {
        var f := fs[g - 1];
        assert f in fs && NamesLast(fs, h.fullToGlobal[f], f);
      }
    }
  }

  // ---------------------------------------------------------------------------------------------
  // The scan inside poll
  // ---------------------------------------------------------------------------------------------

  const META_DATA := 0

  /** `metaSensor` is the sensor named inside a meta-data event. */
  datatype Event = Event(kind: int, sensor: int, metaSensor: int, payload: int)

  function Remap(h: Handles, moduleIndex: int, e: Event): Event {
    if e.kind == META_DATA
    then e.(metaSensor := h.Global(FullHandle(moduleIndex, e.metaSensor)))
    else e.(sensor := h.Global(FullHandle(moduleIndex, e.sensor)))
  }

  /** A consumption order: which queue each event was taken from. */
  type Trace = seq<(nat, Event)>

  /** The events of `t` taken from queue `i`, in order. */
  ghost function Proj(t: Trace, i: nat): seq<Event> {
    if t == [] then []
    else Proj(t[..|t| - 1], i) + if t[|t| - 1].0 == i then [t[|t| - 1].1] else []
  }

  /** The events of `t` passed upstream: remapped, bad handles dropped. */
  ghost function Emit(h: Handles, t: Trace): seq<Event> {
    if t == [] then []
    else
      var e := Remap(h, t[|t| - 1].0, t[|t| - 1].1);
      Emit(h, t[..|t| - 1]) + if e.sensor == -1 then [] else [e]
  }

  lemma {:induction false} ProjConcat(t: Trace, u: Trace, i: nat)
    ensures Proj(t + u, i) == Proj(t, i) + Proj(u, i)
  {
    if u == [] {
      assert t + u == t;
    } else {
      ProjConcat(t, u[..|u| - 1], i);
      assert (t + u)[..|t + u| - 1] == t + u[..|u| - 1];
    }
  }

  lemma {:induction false} EmitConcat(h: Handles, t: Trace, u: Trace)
    ensures Emit(h, t + u) == Emit(h, t) + Emit(h, u)
  {
    if u == [] {
      assert t + u == t;
    } else {
      EmitConcat(h, t, u[..|u| - 1]);
      assert (t + u)[..|t + u| - 1] == t + u[..|u| - 1];
    }
  }

  lemma EmitOne(h: Handles, i: nat, e: Event)
    ensures Emit(h, [(i, e)]) == if Remap(h, i, e).sensor == -1 then [] else [Remap(h, i, e)]
  {
    assert [(i, e)][..0] == [];
  }

  /** The only events dropped are those whose sensor field is -1 after remapping: unregistered
      normal events, and meta-data events already carrying -1. */
  lemma DroppedIffUnregistered(h: Handles, m: int, e: Event)
    requires forall f :: f in h.fullToGlobal ==> h.fullToGlobal[f] != -1
    ensures Remap(h, m, e).sensor == -1 <==>
      if e.kind == META_DATA then e.sensor == -1 else FullHandle(m, e.sensor) !in h.fullToGlobal
  {
  }

  /** `g` is the handle under which the sensor `f` was last registered, or -1 when it never was. */
  ghost predicate NamesSensor(fs: seq<FullHandle>, g: int, f: FullHandle) {
    if f in fs then NamesLast(fs, g, f) else g == -1
  }

  /** `o` is the event `e` of module `i` with its sensor named by the global handle: the sensor field of a
      normal event, the nested sensor of a meta-data event, and nothing else. */
  ghost predicate Translated(fs: seq<FullHandle>, i: nat, e: Event, o: Event) {
    && o.kind == e.kind && o.payload == e.payload
    && if e.kind == META_DATA
       then o.sensor == e.sensor && NamesSensor(fs, o.metaSensor, FullHandle(i, e.metaSensor))
       else o.metaSensor == e.metaSensor && NamesSensor(fs, o.sensor, FullHandle(i, e.sensor))
  }

  /** A normal event of a sensor that was never registered, or meta-data already marked as bad. */
  ghost predicate Bad(fs: seq<FullHandle>, i: nat, e: Event) {
    if e.kind == META_DATA then e.sensor == -1 else FullHandle(i, e.sensor) !in fs
  }

  /** `out` holds, in order, the translations of exactly those events of `t` that are not bad; `at` says
      where in `t` each comes from. */
  ghost predicate TranslatesAt(fs: seq<FullHandle>, t: Trace, out: seq<Event>, at: seq<nat>) {
    && |at| == |out|
    && (forall i, j :: 0 <= i < j < |at| ==> at[i] < at[j])
    && (forall j :: 0 <= j < |at| ==> at[j] < |t| && !Bad(fs, t[at[j]].0, t[at[j]].1) && Translated(fs, t[at[j]].0, t[at[j]].1, out[j]))
    && (forall k :: 0 <= k < |t| && k !in at ==> Bad(fs, t[k].0, t[k].1))
  }

  ghost predicate Translates(fs: seq<FullHandle>, t: Trace, out: seq<Event>) {
    exists at :: TranslatesAt(fs, t, out, at)
  }

  lemma RemapTranslates(fs: seq<FullHandle>, i: nat, e: Event)
    ensures Translated(fs, i, e, Remap(Registered(fs), i, e))
    ensures Remap(Registered(fs), i, e).sensor == -1 <==> Bad(fs, i, e)
  {
    RegisteredMaps(fs);
  }

  lemma TranslatesMore(fs: seq<FullHandle>, t: Trace, out: seq<Event>, at: seq<nat>, i: nat, e: Event, o: Event)
    requires TranslatesAt(fs, t, out, at) && Translated(fs, i, e, o)
    ensures Bad(fs, i, e) ==> TranslatesAt(fs, t + [(i, e)], out, at)
    ensures !Bad(fs, i, e) ==> TranslatesAt(fs, t + [(i, e)], out + [o], at + [|t|])
  {
    assert forall k :: 0 <= k < |t| ==> (t + [(i, e)])[k] == t[k];
    assert forall k :: k in at + [|t|] <==> k in at || k == |t|;
  }

  lemma TranslatesOneMore(fs: seq<FullHandle>, t: Trace, out: seq<Event>, i: nat, e: Event, o: Event)
    requires Translates(fs, t, out) && Translated(fs, i, e, o)
    ensures Translates(fs, t + [(i, e)], if Bad(fs, i, e) then out else out + [o])
  {
    var at :| TranslatesAt(fs, t, out, at);
    TranslatesMore(fs, t, out, at, i, e, o);
  }

  lemma EmitMore(h: Handles, t: Trace, i: nat, e: Event)
    ensures Emit(h, t + [(i, e)]) == if Remap(h, i, e).sensor == -1 then Emit(h, t) else Emit(h, t) + [Remap(h, i, e)]
  {
    assert (t + [(i, e)])[..|t|] == t;
  }

  /** With the maps that the registrations left, every event handed up is the translation of the one it comes
      from, and only bad events are missing. */
  lemma {:induction false} EmitTranslates(fs: seq<FullHandle>, t: Trace)
    ensures Translates(fs, t, Emit(Registered(fs), t))
  {
    if t == [] {
      assert TranslatesAt(fs, t, [], []);
    } else {
      var before, i, e := t[..|t| - 1], t[|t| - 1].0, t[|t| - 1].1;
      assert t == before + [(i, e)];
      EmitTranslates(fs, before);
      RemapTranslates(fs, i, e);
      EmitMore(Registered(fs), before, i, e);
      TranslatesOneMore(fs, before, Emit(Registered(fs), before), i, e, Remap(Registered(fs), i, e));
    }
  }

  /** The global handle of a translated event leads back to the module and the handle it came from, so a
      command for that sensor goes where its events come from. */
  lemma TranslatedLeadsBack(fs: seq<FullHandle>, i: nat, e: Event, o: Event)
    requires Translated(fs, i, e, o) && !Bad(fs, i, e) && e.kind != META_DATA
    ensures Registered(fs).ModuleIndex(o.sensor) == i && Registered(fs).LocalHandle(o.sensor) == e.sensor
  {
    RegisteredMaps(fs);
  }

  /** So does the sensor named inside a meta-data event, if it is registered. */
  lemma MetaLeadsBack(fs: seq<FullHandle>, i: nat, e: Event, o: Event)
    requires Translated(fs, i, e, o) && e.kind == META_DATA
    ensures FullHandle(i, e.metaSensor) in fs ==>
      Registered(fs).ModuleIndex(o.metaSensor) == i && Registered(fs).LocalHandle(o.metaSensor) == e.metaSensor
    ensures FullHandle(i, e.metaSensor) !in fs <==> o.metaSensor == -1
  {
    RegisteredMaps(fs);
  }

  ghost predicate AllOk(qs: seq<Ring<Event>>) {
    forall i :: 0 <= i < |qs| ==> qs[i].Ok()
  }

  ghost predicate AllEmpty(qs: seq<Ring<Event>>) {
    forall i :: 0 <= i < |qs| ==> qs[i].size == 0
  }

  /** `after` is `before` with the events of `t` consumed: each queue lost exactly its own events,
      oldest first. */
  ghost predicate Drained(before: seq<Ring<Event>>, after: seq<Ring<Event>>, t: Trace) {
    && AllOk(before)
    && |after| == |before|
    && (forall k :: 0 <= k < |t| ==> t[k].0 < |before|)
    && (forall i :: 0 <= i < |before| ==>
          && |Proj(t, i)| <= before[i].size
          && after[i] == Consumed(before[i], |Proj(t, i)|)
          && Proj(t, i) == before[i].Readable()[..|Proj(t, i)|])
  }

  /** One more event taken from the front of queue `i`. */
  lemma DrainOne(before: seq<Ring<Event>>, after: seq<Ring<Event>>, t: Trace, i: nat)
    requires Drained(before, after, t) && i < |after| && 0 < after[i].size
    ensures after[i].Ok()
    ensures Drained(before, after[i := after[i].Dequeued()], t + [(i, after[i].slots[after[i].start])])
  {
    var e := after[i].slots[after[i].start];
    var t' := t + [(i, e)];
    assert t'[..|t'| - 1] == t;
    var n := |Proj(t, i)|;
    ConsumedReadable(before[i], n);
    ReadableAfterDequeue(after[i]);
    assert before[i].Readable()[..n + 1] == before[i].Readable()[..n] + [e];
  }

  /** Queue `j` drained at most once more than queue `i`, when `i` still holds events. */
  ghost predicate Fair(after: seq<Ring<Event>>, t: Trace) {
    forall i, j :: 0 <= i < |after| && 0 <= j < |after| && 0 < after[i].size ==>
      |Proj(t, j)| <= |Proj(t, i)| + 1
  }

  ghost function TotalQueued(qs: seq<Ring<Event>>): nat {
    if qs == [] then 0 else qs[0].size + TotalQueued(qs[1..])
  }

  lemma {:induction false} TotalAfterDequeue(qs: seq<Ring<Event>>, i: nat)
    requires i < |qs| && qs[i].Ok() && 0 < qs[i].size
    ensures TotalQueued(qs[i := qs[i].Dequeued()]) == TotalQueued(qs) - 1
  {
    var qs' := qs[i := qs[i].Dequeued()];
    if i == 0 {
      assert qs'[1..] == qs[1..];
    } else {
      TotalAfterDequeue(qs[1..], i - 1);
      assert qs'[1..] == qs[1..][i - 1 := qs[1..][i - 1].Dequeued()];
    }
  }

  /** How far queue `i` is from `origin` in scan order. */
  ghost function Offset(n: nat, origin: nat, i: nat): nat
    requires origin < n && i < n
  {
    if i >= origin then i - origin else i + n - origin
  }

  /** After `round` full turns and `pos` further visits from `origin`, how often queue `i` was visited. */
  ghost function Visits(n: nat, origin: nat, round: nat, pos: nat, i: nat): nat
    requires origin < n && i < n
  {
    round + if Offset(n, origin, i) < pos then 1 else 0
  }

  /** No queue was served more often than visited, and a queue still holding events was served on
      every visit. */
  ghost predicate ServedPerVisit(qs: seq<Ring<Event>>, t: Trace, origin: nat, round: nat, pos: nat) {
    && (0 < |qs| ==> origin < |qs|)
    && forall i :: 0 <= i < |qs| ==>
         && |Proj(t, i)| <= Visits(|qs|, origin, round, pos, i)
         && (0 < qs[i].size ==> |Proj(t, i)| == Visits(|qs|, origin, round, pos, i))
  }

  /** The visits of a scan: `round` full turns and `pos` more queues from `origin` on, so that `next` comes next. */
  datatype Turns = Turns(origin: nat, round: nat, pos: nat, next: nat)

  /** The queue `pos` places after `origin` in scan order. */
  ghost function Place(n: nat, origin: nat, pos: nat): nat
    requires origin < n && pos < n
  {
    if origin + pos < n then origin + pos else origin + pos - n
  }

  ghost predicate TookTurns(after: seq<Ring<Event>>, t: Trace, turns: Turns) {
    && ServedPerVisit(after, t, turns.origin, turns.round, turns.pos)
    && (0 < |after| ==> turns.pos < |after| && turns.next == Place(|after|, turns.origin, turns.pos))
  }

  /** What one scan of the queues may do: deliver at most `maxReads` events, fewer only when every
      queue was left empty, in an order that keeps each queue's own order, takes turns and starves none. */
  ghost predicate ScanOutcome(h: Handles, before: seq<Ring<Event>>, after: seq<Ring<Event>>,
                              t: Trace, turns: Turns, out: seq<Event>, maxReads: int)
  {
    && Drained(before, after, t)
    && out == Emit(h, t)
    && (0 < |out| ==> |out| <= maxReads)
    && (|out| < maxReads ==> AllEmpty(after))
    && Fair(after, t)
    && TookTurns(after, t, turns)
  }

  /** The queue `k` visits before `next`. */
  ghost function Back(n: nat, next: nat, k: nat): nat
    requires next < n && k <= n
  {
    if next >= k then next - k else next + n - k
  }

  /** A scan in progress: what it consumed (`t`) and delivered (`out`) so far, `pos` visits into turn
      `round` from queue `origin`, the last `empties` visited queues found empty. */
  datatype Progress = Progress(t: Trace, out: seq<Event>, origin: nat, round: nat, pos: nat, empties: nat)

  ghost predicate Scanning(h: Handles, before: seq<Ring<Event>>, qs: seq<Ring<Event>>, next: nat, p: Progress) {
    && Drained(before, qs, p.t)
    && p.out == Emit(h, p.t)
    && p.empties <= |qs|
    && ServedPerVisit(qs, p.t, p.origin, p.round, p.pos)
    && (0 < |qs| ==>
          && p.pos < |qs|
          && next == Place(|qs|, p.origin, p.pos)
          && next < |qs|
          && forall k :: 1 <= k <= p.empties ==> qs[Back(|qs|, next, k)].size == 0)
  }

  function Next(n: nat, i: nat): nat { if i + 1 == n then 0 else i + 1 }

  /** Progress after one more visit, which consumed `taken`. */
  ghost function Advance(h: Handles, n: nat, p: Progress, taken: Trace): Progress {
    Progress(p.t + taken, p.out + Emit(h, taken), p.origin,
             if p.pos + 1 == n then p.round + 1 else p.round, Next(n, p.pos),
             if taken == [] then p.empties + 1 else 0)
  }

  lemma ProjMore(t: Trace, i: nat, e: Event, j: nat)
    ensures Proj(t + [(i, e)], j) == if j == i then Proj(t, j) + [e] else Proj(t, j)
  {
    var t' := t + [(i, e)];
    assert t'[..|t'| - 1] == t;
  }

  /** The visit of queue `next` counts for it and for no other queue. */
  lemma VisitsMore(n: nat, origin: nat, round: nat, pos: nat, next: nat, i: nat)
    requires origin < n && i < n && pos < n && next < n
    requires next == Place(n, origin, pos)
    ensures Visits(n, origin, if pos + 1 == n then round + 1 else round, Next(n, pos), i)
      == Visits(n, origin, round, pos, i) + if i == next then 1 else 0
  {
  }

  /** Two scans in a row are one longer scan from the first one's origin. */
  ghost function Joined(n: nat, a: Turns, b: Turns): Turns {
    if a.pos + b.pos < n then Turns(a.origin, a.round + b.round, a.pos + b.pos, b.next)
    else Turns(a.origin, a.round + b.round + 1, a.pos + b.pos - n, b.next)
  }

  lemma VisitsAdd(n: nat, a: Turns, b: Turns, i: nat)
    requires a.origin < n && b.origin < n && a.pos < n && b.pos < n && i < n
    requires b.origin == Place(n, a.origin, a.pos) && b.next == Place(n, b.origin, b.pos)
    ensures var c := Joined(n, a, b);
      && 0 <= c.pos < n && c.next == Place(n, a.origin, c.pos)
      && Visits(n, a.origin, a.round, a.pos, i) + Visits(n, b.origin, b.round, b.pos, i) == Visits(n, c.origin, c.round, c.pos, i)
  {
  }

  lemma ServedAfter(qs: seq<Ring<Event>>, p: Progress, next: nat, e: Event)
    requires ServedPerVisit(qs, p.t, p.origin, p.round, p.pos) && next < |qs| && p.pos < |qs| && qs[next].Ok() && 0 < qs[next].size
    requires p.origin < |qs| && next == Place(|qs|, p.origin, p.pos)
    ensures ServedPerVisit(qs[next := qs[next].Dequeued()], p.t + [(next, e)], p.origin,
              if p.pos + 1 == |qs| then p.round + 1 else p.round, Next(|qs|, p.pos))
  {
    var n, qs', t' := |qs|, qs[next := qs[next].Dequeued()], p.t + [(next, e)];
    var round', pos' := if p.pos + 1 == n then p.round + 1 else p.round, Next(n, p.pos);
    forall i | 0 <= i < n
      ensures |Proj(t', i)| <= Visits(n, p.origin, round', pos', i)
      ensures 0 < qs'[i].size ==> |Proj(t', i)| == Visits(n, p.origin, round', pos', i)
    {
      ProjMore(p.t, next, e, i);
      VisitsMore(n, p.origin, p.round, p.pos, next, i);
    }
  }

  lemma VisitServes(h: Handles, before: seq<Ring<Event>>, qs: seq<Ring<Event>>, next: nat, p: Progress)
    requires Scanning(h, before, qs, next, p)
    requires next < |qs| && 0 < qs[next].size
    ensures qs[next].Ok() && AllOk(qs[next := qs[next].Dequeued()])
    ensures
      var q := qs[next];
      var taken := [(next, q.slots[q.start])];
      Scanning(h, before, qs[next := q.Dequeued()], Next(|qs|, next), Advance(h, |qs|, p, taken))
  {
    DrainOne(before, qs, p.t, next);
    var q := qs[next];
    var e := q.slots[q.start];
    EmitConcat(h, p.t, [(next, e)]);
    ServedAfter(qs, p, next, e);
    DrainedOk(before, qs[next := q.Dequeued()], p.t + [(next, e)]);
  }

  lemma DrainedOk(before: seq<Ring<Event>>, after: seq<Ring<Event>>, t: Trace)
    requires Drained(before, after, t)
    ensures AllOk(after)
  {
  }

  lemma BackStep(n: nat, next: nat, k: nat)
    requires next < n && 1 <= k <= n
    ensures Back(n, Next(n, next), k) == if k == 1 then next else Back(n, next, k - 1)
  {
  }

  lemma ServedEmpty(qs: seq<Ring<Event>>, p: Progress, next: nat)
    requires ServedPerVisit(qs, p.t, p.origin, p.round, p.pos) && next < |qs| && p.pos < |qs| && qs[next].size == 0
    requires p.origin < |qs| && next == Place(|qs|, p.origin, p.pos)
    ensures ServedPerVisit(qs, p.t, p.origin, if p.pos + 1 == |qs| then p.round + 1 else p.round, Next(|qs|, p.pos))
  {
    forall i | 0 <= i < |qs|
      ensures Visits(|qs|, p.origin, if p.pos + 1 == |qs| then p.round + 1 else p.round, Next(|qs|, p.pos), i)
        == Visits(|qs|, p.origin, p.round, p.pos, i) + if i == next then 1 else 0
    {
      VisitsMore(|qs|, p.origin, p.round, p.pos, next, i);
    }
  }

  lemma VisitFindsEmpty(h: Handles, before: seq<Ring<Event>>, qs: seq<Ring<Event>>, next: nat, p: Progress)
    requires Scanning(h, before, qs, next, p)
    requires next < |qs| && qs[next].size == 0 && p.empties < |qs|
    ensures Scanning(h, before, qs, Next(|qs|, next), Advance(h, |qs|, p, []))
  {
    var n := |qs|;
    assert p.t + [] == p.t && p.out + [] == p.out;
    ServedEmpty(qs, p, next);
    forall k | 1 <= k <= p.empties + 1 ensures qs[Back(n, Next(n, next), k)].size == 0 {
      BackStep(n, next, k);
    }
  }

  /** A scan that met |qs| empty queues in a row has met them all. */
  lemma ScanEnds(h: Handles, before: seq<Ring<Event>>, qs: seq<Ring<Event>>, next: nat, p: Progress, maxReads: int)
    requires Scanning(h, before, qs, next, p)
    requires 0 < |p.out| ==> |p.out| <= maxReads
    requires p.empties == |qs| || maxReads <= |p.out|
    ensures ScanOutcome(h, before, qs, p.t, Turns(p.origin, p.round, p.pos, next), p.out, maxReads)
  {
    forall i | 0 <= i < |qs| && p.empties == |qs| ensures qs[i].size == 0 {
      var k := if i < next then next - i else next + |qs| - i;
      assert Back(|qs|, next, k) == i;
    }
  }

  class PollContext {
    var queues: seq<Ring<Event>>
    var nextReadIndex: nat
    const handles: Handles
    ghost const sensors: seq<FullHandle>

    /** The maps are what registering `sensors` left. */
    ghost predicate Valid()
      reads this
    {
      AllOk(queues) && (nextReadIndex < |queues| || |queues| == 0) && handles == Registered(sensors)
    }

    constructor (queues: seq<Ring<Event>>, handles: Handles, ghost sensors: seq<FullHandle>)
      requires AllOk(queues) && handles == Registered(sensors)
      ensures Valid() && this.queues == queues && this.handles == handles && this.sensors == sensors
    {
      this.queues, this.nextReadIndex, this.handles, this.sensors := queues, 0, handles, sensors;
    }

    /** The queue under `nextReadIndex` holds an event: it is taken, remapped and, unless its handle is
        unknown, delivered. */
    method Serve(data: array<Event>, eventsRead: nat, ghost before: seq<Ring<Event>>, ghost p: Progress)
      returns (read: nat, ghost p': Progress)
      requires Valid() && eventsRead < data.Length && nextReadIndex < |queues| && 0 < queues[nextReadIndex].size
      requires Scanning(handles, before, queues, nextReadIndex, p) && p.out == data[..eventsRead]
      modifies this`queues, data
      ensures AllOk(queues) && eventsRead <= read <= eventsRead + 1 && |queues| == |old(queues)|
      ensures Scanning(handles, before, queues, Next(|queues|, nextReadIndex), p')
      ensures p'.out == data[..read] && p'.empties == 0 && p'.origin == p.origin
      ensures TotalQueued(queues) < old(TotalQueued(queues))
    {
      var q := queues[nextReadIndex];
      var event := q.slots[q.start];
      p' := Advance(handles, |queues|, p, [(nextReadIndex, event)]);
      read := Deliver(data, eventsRead, event);
      VisitServes(handles, before, queues, nextReadIndex, p);
      TotalAfterDequeue(queues, nextReadIndex);
      queues := queues[nextReadIndex := q.Dequeued()];
    }

    /** The event is remapped into the caller's array; it stays there unless its handle is unknown. */
    method Deliver(data: array<Event>, eventsRead: nat, event: Event) returns (read: nat)
      requires eventsRead < data.Length && handles == Registered(sensors)
      modifies data
      ensures read == if Bad(sensors, nextReadIndex, event) then eventsRead else eventsRead + 1
      ensures Translated(sensors, nextReadIndex, event, data[eventsRead])
      ensures data[..read] == old(data[..eventsRead]) + Emit(handles, [(nextReadIndex, event)])
    {
      RemapTranslates(sensors, nextReadIndex, event);
      EmitOne(handles, nextReadIndex, event);
      read := eventsRead;
      data[eventsRead] := Remap(handles, nextReadIndex, event);
      if data[eventsRead].sensor != -1 {
        read := eventsRead + 1;
      }
      assert data[..eventsRead] == old(data[..eventsRead]);
    }

    /** One visit of the scan: serves the queue under `nextReadIndex`, if it holds an event, and moves on. */
    method Visit(data: array<Event>, eventsRead: nat, empties: nat, ghost before: seq<Ring<Event>>, ghost p: Progress)
      returns (read: nat, empties': nat, ghost p': Progress)
      requires Valid() && eventsRead < data.Length && empties < |queues|
      requires Scanning(handles, before, queues, nextReadIndex, p)
      requires p.out == data[..eventsRead] && p.empties == empties
      modifies this`queues, this`nextReadIndex, data
      ensures Valid() && eventsRead <= read <= eventsRead + 1 && |queues| == |old(queues)|
      ensures Scanning(handles, before, queues, nextReadIndex, p')
      ensures p'.out == data[..read] && p'.empties == empties' && p'.origin == p.origin
      ensures TotalQueued(queues) < old(TotalQueued(queues))
           || (queues == old(queues) && empties' == empties + 1)
    {
      read := eventsRead;
      if queues[nextReadIndex].size == 0 {
        VisitFindsEmpty(handles, before, queues, nextReadIndex, p);
        p' := Advance(handles, |queues|, p, []);
        empties' := empties + 1;
      } else {
        empties' := 0;
        read, p' := Serve(data, eventsRead, before, p);
      }
      ModWrap(nextReadIndex + 1, |queues|);
      nextReadIndex := (nextReadIndex + 1) % |queues|;
    }

    /** The inner loop of poll, run with the lock held. It always ends: each visit consumes an event
        or raises the count of consecutive empty queues. */
    method Scan(data: array<Event>, maxReads: int) returns (eventsRead: nat, ghost trace: Trace, ghost turns: Turns)
      requires Valid() && maxReads <= data.Length
      modifies this`queues, this`nextReadIndex, data
      ensures Valid()
      ensures eventsRead <= data.Length
      ensures ScanOutcome(handles, old(queues), queues, trace, turns, data[..eventsRead], maxReads)
      ensures turns.origin == old(nextReadIndex) && turns.next == nextReadIndex
      ensures Translates(sensors, trace, data[..eventsRead])
    {
      var empties := 0;
      eventsRead := 0;
      ghost var p := Progress([], [], nextReadIndex, 0, 0, 0);
      while empties < |queues| && eventsRead < maxReads
        invariant Valid() && |queues| == |old(queues)| && eventsRead <= data.Length
        invariant 0 < eventsRead ==> eventsRead <= maxReads
        invariant Scanning(handles, old(queues), queues, nextReadIndex, p)
        invariant p.out == data[..eventsRead] && p.empties == empties && p.origin == old(nextReadIndex)
        decreases TotalQueued(queues), |queues| - empties
      {
        eventsRead, empties, p := Visit(data, eventsRead, empties, old(queues), p);
      }
      ScanEnds(handles, old(queues), queues, nextReadIndex, p, maxReads);
      trace, turns := p.t, Turns(p.origin, p.round, p.pos, nextReadIndex);
      EmitTranslates(sensors, trace);
    }
  }
}
