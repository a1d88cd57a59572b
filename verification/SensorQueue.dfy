/**
 The circular event queue of the sensor multi-HAL (sensors/SensorEventQueue.cpp) and the
 protocol its single writer follows (writerTask in sensors/multihal.cpp): reserve a contiguous
 region under the lock, let the sub-HAL fill it with the lock released, commit under the lock,
 while the reader dequeues in between.

 `Ring` is the value of a queue, `SensorEventQueue` the mutable queue refining it, `Step` and
 `Run` the interleavings of one writer with the reader.
 */
module SensorQueue {
  import opened Basics
  import opened Division

  /** The value of a queue: the backing store, the first readable slot, the readable count. */
  datatype Ring<E> = Ring(slots: seq<E>, start: nat, size: nat) {

    predicate Ok() {
      && size <= |slots|
      && (start < |slots| || (start == 0 && |slots| == 0))
    }

    /** The slot `i` places after the first readable one, in ring order. */
    function Slot(i: nat): (k: nat)
      requires Ok() && i <= |slots| && 0 < |slots|
      ensures k < |slots|
    {
      if start + i < |slots| then start + i else start + i - |slots|
    }

    /** What a reader sees, oldest first. */
    ghost function Readable(): (s: seq<E>)
      requires Ok()
      ensures |s| == size
    {
      seq(size, i requires 0 <= i < size => slots[Slot(i)])
    }

    /** One event consumed; a no-op on an empty queue. */
    function Dequeued(): Ring<E>
      requires Ok()
    {
      if size == 0 then this else Ring(slots, Slot(1), size - 1)
    }

    /** `n` more slots declared readable. */
    function Committed(n: nat): Ring<E> {
      Ring(slots, start, size + n)
    }
  }

  /** It is the program's reduction modulo the capacity. */
  lemma SlotIsRemainder<E>(r: Ring<E>, i: nat)
    requires r.Ok() && i <= |r.slots| && 0 < |r.slots|
    ensures r.Slot(i) == (r.start + i) % |r.slots|
  {
    ModWrap(r.start + i, |r.slots|);
  }

  /** Slots at different ring distances below the capacity are different slots. */
  lemma SlotInjective<E>(r: Ring<E>, i: nat, j: nat)
    requires r.Ok() && i < |r.slots| && j < |r.slots|
    requires i != j
    ensures r.Slot(i) != r.Slot(j)
  {
  }

  /** Dequeuing moves the start by one, so every later slot is one place nearer. */
  lemma SlotAfterDequeue<E>(r: Ring<E>, i: nat)
    requires r.Ok() && 0 < r.size && i < |r.slots|
    ensures r.Dequeued().Ok() && r.Dequeued().Slot(i) == r.Slot(i + 1)
  {
  }

  lemma ReadableAfterDequeue<E>(r: Ring<E>)
    requires r.Ok() && 0 < r.size
    ensures r.Dequeued().Ok()
    ensures r.Readable() == [r.slots[r.start]] + r.Dequeued().Readable()
  {
    SlotAfterDequeue(r, 0);
    forall i | 0 <= i < r.size - 1
      ensures r.Dequeued().Readable()[i] == r.Readable()[i + 1]
    {
      SlotAfterDequeue(r, i);
    }
  }

  /** A region of `n` slots beginning at `first` that a writer may fill: contiguous in memory, the
      next slots in ring order, none of them readable. */
  predicate Writable<E>(r: Ring<E>, first: nat, n: nat) {
    && r.Ok()
    && 0 < |r.slots|
    && first == r.Slot(r.size)
    && first + n <= |r.slots|
    && r.size + n <= |r.slots|
  }

  /** The slots of a writable region are the ones that follow the readable slots in ring order,
      and none of them is readable. */
  lemma WritableIsFree<E>(r: Ring<E>, first: nat, n: nat, k: nat)
    requires Writable(r, first, n) && k < n
    ensures first + k == r.Slot(r.size + k)
    ensures forall i :: 0 <= i < r.size ==> r.Slot(i) != first + k
  {
    forall i | 0 <= i < r.size ensures r.Slot(i) != first + k {
      SlotInjective(r, i, r.size + k);
    }
  }

  /** The rely condition of the unlocked writer: the reader's dequeues never move the end of the
      readable region, so the granted region stays writable. */
  lemma WritableStable<E>(r: Ring<E>, first: nat, n: nat)
    requires Writable(r, first, n) && 0 < r.size
    ensures Writable(r.Dequeued(), first, n)
    ensures r.Dequeued().slots == r.slots
  {
    if r.size < |r.slots| {
      SlotAfterDequeue(r, r.size - 1);
    } else {
    }
  }

  /** The guarantee of the unlocked writer: a store into the granted region is invisible to the reader. */
  lemma FillInvisible<E>(r: Ring<E>, first: nat, n: nat, k: nat, e: E)
    requires Writable(r, first, n) && k < n
    ensures Writable(r.(slots := r.slots[first + k := e]), first, n)
    ensures r.(slots := r.slots[first + k := e]).Readable() == r.Readable()
  {
    WritableIsFree(r, first, n, k);
  }

  /** Committing appends exactly the events stored at the front of the granted region. */
  lemma CommitAppends<E>(r: Ring<E>, first: nat, n: nat)
    requires Writable(r, first, n)
    ensures r.Committed(n).Ok()
    ensures r.Committed(n).Readable() == r.Readable() + r.slots[first..first + n]
  {
    var after := r.Committed(n).Readable();
    var before := r.Readable();
    forall j | r.size <= j < r.size + n ensures after[j] == r.slots[first + (j - r.size)] {
      WritableIsFree(r, first, n, j - r.size);
    }
    assert forall j :: 0 <= j < r.size ==> after[j] == before[j];
  }

  /** The ring after its `n` oldest events were consumed. */
  ghost function Consumed<E>(r: Ring<E>, n: nat): (c: Ring<E>)
    requires r.Ok() && n <= r.size
    ensures c.Ok() && c.slots == r.slots && c.size == r.size - n
  {
    if n == 0 then r
    else
      assert Consumed(r, n - 1).Ok();
      ReadableAfterDequeue(Consumed(r, n - 1));
      Consumed(r, n - 1).Dequeued()
  }

  lemma {:induction false} ConsumedReadable<E>(r: Ring<E>, n: nat)
    requires r.Ok() && n <= r.size
    ensures Consumed(r, n).Readable() == r.Readable()[n..]
  {
    if n > 0 {
      ConsumedReadable(r, n - 1);
      ReadableAfterDequeue(Consumed(r, n - 1));
    }
  }

  lemma {:induction false} ConsumedWritable<E>(r: Ring<E>, n: nat, first: nat, len: nat)
    requires r.Ok() && n <= r.size && Writable(r, first, len)
    ensures Writable(Consumed(r, n), first, len)
  {
    if n > 0 {
      ConsumedWritable(r, n - 1, first, len);
      WritableStable(Consumed(r, n - 1), first, len);
    }
  }

  // ---------------------------------------------------------------------------------------------
  // The mutable queue
  // ---------------------------------------------------------------------------------------------

  const INT_MAX := 0x7fff_ffff

  class SensorEventQueue<E(0)> {
    const data: array<E>
    var start: nat
    var size: nat

    ghost function View(): Ring<E>
      reads this, data
    {
      Ring(data[..], start, size)
    }

    ghost predicate Valid()
      reads this, data
    {
      View().Ok()
    }

    constructor (capacity: nat)
      ensures Valid() && fresh(data) && data.Length == capacity
      ensures View().Readable() == []
    {
      data := new E[capacity];
      start, size := 0, 0;
    }

    /** The region is the longest one that is contiguous, free and not longer than requested;
        it is empty only when the queue is full or nothing was requested. */
    method GetWritableRegion(requestedLength: int) returns (length: nat, first: nat)
      requires Valid()
      requires size < data.Length && 0 < requestedLength ==> (start + size) % data.Length + requestedLength <= INT_MAX
      ensures length == 0 <==> size == data.Length || requestedLength <= 0
      ensures 0 < length ==> Writable(View(), first, length)
      ensures 0 < length ==>
        length == Min(requestedLength, Min(data.Length - first, data.Length - size))
    {
      if size == data.Length || requestedLength <= 0 {
        return 0, 0;
      }
      first := (start + size) % data.Length;
      ModWrap(start + size, data.Length);
      var last := first + requestedLength - 1;
      if last > data.Length - 1 {
        last := data.Length - 1;
      }
      if first < start && last >= start {
        last := start - 1;
      }
      length := last - first + 1;
    }

    method MarkAsWritten(count: nat)
      requires Valid()
      requires size + count <= data.Length
      modifies this
      ensures Valid() && View() == old(View()).Committed(count)
      ensures forall first: nat | Writable(old(View()), first, count) ::
        View().Readable() == old(View().Readable()) + data[first..first + count]
    {
      forall first: nat | Writable(View(), first, count)
        ensures View().Committed(count).Readable() == View().Readable() + data[first..first + count]
      {
        CommitAppends(View(), first, count);
        assert View().slots[first..first + count] == data[first..first + count];
      }
      size := size + count;
    }

    /** The slot of the oldest readable record, or nothing when there is none. */
    method Peek() returns (found: bool, slot: nat)
      requires Valid()
      ensures found <==> View().Readable() != []
      ensures found ==> slot < data.Length && data[slot] == View().Readable()[0]
    {
      if size == 0 {
        return false, 0;
      }
      return true, start;
    }

    /** `wake` says that the space-available condition is broadcast. */
    method Dequeue() returns (wake: bool)
      requires Valid()
      modifies this
      ensures Valid() && View() == old(View()).Dequeued()
      ensures View().Readable() == if old(size) == 0 then [] else old(View().Readable())[1..]
      ensures wake <==> old(size) == data.Length && 0 < data.Length
      ensures forall first: nat, n: nat | old(Writable(View(), first, n)) :: Writable(View(), first, n)
    {
      if size == 0 {
        return false;
      }
      wake := size == data.Length;
      ReadableAfterDequeue(View());
      forall first: nat, n: nat | Writable(View(), first, n)
        ensures Writable(View().Dequeued(), first, n)
      {
        WritableStable(View(), first, n);
      }
      size := size - 1;
      ModWrap(start + 1, data.Length);
      start := (start + 1) % data.Length;
    }

    /** The reader consumes up to `n` events. */
    method Consume(n: nat)
      requires Valid()
      modifies this
      ensures Valid() && size == if n <= old(size) then old(size) - n else 0
      ensures View() == Consumed(old(View()), old(size) - size)
    {
      ghost var v0 := View();
      var i := 0;
      while i < n && 0 < size
        invariant i <= n && Valid() && size + i == v0.size
        invariant View() == Consumed(v0, i)
      {
        var _ := Dequeue();
        i := i + 1;
      }
    }

    /** `wakeups[k]` is the number of events the reader consumes before the k-th return of the
        condition wait (0 is a spurious wake-up); `ready` is false while the writer still sleeps. */
    method WaitForSpace(wakeups: seq<nat>) returns (waited: bool, ready: bool)
      requires Valid()
      modifies this
      ensures Valid() && size <= old(size)
      ensures waited <==> old(size) == data.Length
      ensures ready <==> size < data.Length
      ensures ready || forall k :: 0 <= k < |wakeups| ==> wakeups[k] == 0 || data.Length == 0
      ensures View() == Consumed(old(View()), old(size) - size)
      ensures View().Readable() == old(View()).Readable()[old(size) - size..]
    {
      ghost var v0 := View();
      waited := size == data.Length;
      var k := 0;
      while size == data.Length && k < |wakeups|
        invariant k <= |wakeups| && Valid() && size <= v0.size
        invariant size == data.Length ==> forall j :: 0 <= j < k ==> wakeups[j] == 0 || data.Length == 0
        invariant View() == Consumed(v0, v0.size - size)
      {
        Consume(wakeups[k]);
        k := k + 1;
      }
      ready := size < data.Length;
      ConsumedReadable(v0, v0.size - size);
    }
  }

  // ---------------------------------------------------------------------------------------------
  // Interleavings of one writer and the reader
  // ---------------------------------------------------------------------------------------------

  /** Where the writer is: outside its protocol, inside the sub-HAL's poll with a granted region,
      or back from poll with `n` events it has not committed yet. */
  datatype Writer =
    | Ready
    | Polling(first: nat, len: nat)
    | Polled(first: nat, n: nat)

  /** `polled` and `delivered` record every event the sub-HAL returned and every event the reader took. */
  datatype Sys<E> = Sys(ring: Ring<E>, writer: Writer, polled: seq<E>, delivered: seq<E>)

  datatype Step<E> =
    | Reserve(length: nat, first: nat)
    | Fill(k: nat, e: E)
    | PollReturns(n: nat)
    | PollFails
    | Commit
    | Take

  predicate Enabled<E>(s: Sys<E>, step: Step<E>) {
    match step
    case Reserve(length, first) => s.writer.Ready? && 0 < length && Writable(s.ring, first, length)
    case Fill(k, _) => s.writer.Polling? && k < s.writer.len && s.writer.first + k < |s.ring.slots|
    case PollReturns(n) =>
      s.writer.Polling? && 0 < n <= s.writer.len && s.writer.first + n <= |s.ring.slots|
    case PollFails => s.writer.Polling?
    case Commit => s.writer.Polled?
    case Take => s.ring.Ok() && 0 < s.ring.size
  }

  function Apply<E>(s: Sys<E>, step: Step<E>): Sys<E>
    requires Enabled(s, step)
  {
    match step
    case Reserve(length, first) => s.(writer := Polling(first, length))
    case Fill(k, e) => s.(ring := s.ring.(slots := s.ring.slots[s.writer.first + k := e]))
    case PollReturns(n) =>
      s.(writer := Polled(s.writer.first, n),
         polled := s.polled + s.ring.slots[s.writer.first..s.writer.first + n])
    case PollFails => s.(writer := Ready)
    case Commit => s.(writer := Ready, ring := s.ring.Committed(s.writer.n))
    case Take =>
      s.(ring := s.ring.Dequeued(), delivered := s.delivered + [s.ring.slots[s.ring.start]])
  }

  /** Events returned by poll and not yet committed. */
  function InFlight<E>(s: Sys<E>): seq<E> {
    if s.writer.Polled? && s.writer.first + s.writer.n <= |s.ring.slots|
    then s.ring.slots[s.writer.first..s.writer.first + s.writer.n]
    else []
  }

  ghost predicate Inv<E>(s: Sys<E>) {
    && s.ring.Ok()
    && (s.writer.Polling? ==> Writable(s.ring, s.writer.first, s.writer.len))
    && (s.writer.Polled? ==> Writable(s.ring, s.writer.first, s.writer.n))
    && s.polled == s.delivered + s.ring.Readable() + InFlight(s)
  }

  lemma FillKeepsInv<E>(s: Sys<E>, k: nat, e: E)
    requires Inv(s) && Enabled(s, Fill(k, e))
    ensures Inv(Apply(s, Fill(k, e)))
  {
    FillInvisible(s.ring, s.writer.first, s.writer.len, k, e);
  }

  lemma CommitKeepsInv<E>(s: Sys<E>)
    requires Inv(s) && Enabled(s, Commit)
    ensures Inv(Apply(s, Commit))
  {
    CommitAppends(s.ring, s.writer.first, s.writer.n);
    Regroup(s.delivered, s.ring.Readable(), InFlight(s));
  }

  lemma TakeKeepsInv<E>(s: Sys<E>)
    requires Inv(s) && Enabled(s, Take)
    ensures Inv(Apply(s, Take))
  {
    ReadableAfterDequeue(s.ring);
    if s.writer.Polling? {
      WritableStable(s.ring, s.writer.first, s.writer.len);
    } else if s.writer.Polled? {
      WritableStable(s.ring, s.writer.first, s.writer.n);
    }
    Regroup(s.delivered, [s.ring.slots[s.ring.start]], s.ring.Dequeued().Readable());
  }

  lemma StepKeepsInv<E>(s: Sys<E>, step: Step<E>)
    requires Inv(s) && Enabled(s, step)
    ensures Inv(Apply(s, step))
  {
    match step
    case Reserve(_, _) =>
    case Fill(k, e) => FillKeepsInv(s, k, e);
    case PollReturns(n) =>
    case PollFails =>
    case Commit => CommitKeepsInv(s);
    case Take => TakeKeepsInv(s);
  }

  /** A run from an empty queue of any capacity. */
  ghost predicate Run<E>(states: seq<Sys<E>>, steps: seq<Step<E>>) {
    && |states| == |steps| + 1
    && states[0].ring.Ok() && states[0].ring.size == 0 && states[0].writer == Ready
    && states[0].polled == [] && states[0].delivered == []
    && forall i :: 0 <= i < |steps| ==> Enabled(states[i], steps[i]) && states[i + 1] == Apply(states[i], steps[i])
  }

  lemma {:induction false} RunInv<E>(states: seq<Sys<E>>, steps: seq<Step<E>>, i: nat)
    requires Run(states, steps) && i < |states|
    ensures Inv(states[i]) && |states[i].ring.slots| == |states[0].ring.slots|
  {
    if i > 0 {
      RunInv(states, steps, i - 1);
      StepKeepsInv(states[i - 1], steps[i - 1]);
    }
  }

  /** On every interleaving the events taken by the reader are a prefix, in order, of the events the
      sub-HAL returned, and what is missing is exactly what is queued or in flight: nothing is lost,
      duplicated or reordered, and the backlog never exceeds the capacity. */
  lemma DeliveredIsPrefixOfPolled<E>(states: seq<Sys<E>>, steps: seq<Step<E>>, i: nat)
    requires Run(states, steps) && i < |states|
    ensures states[i].delivered <= states[i].polled
    ensures states[i].ring.Ok()
    ensures states[i].polled[|states[i].delivered|..] == states[i].ring.Readable() + InFlight(states[i])
    ensures |states[i].polled| - |states[i].delivered| <= |states[0].ring.slots|
  {
    RunInv(states, steps, i);
    var s := states[i];
    assert s.polled == s.delivered + (s.ring.Readable() + InFlight(s));
  }

  /** On every interleaving a store by the sub-HAL lands in a slot that no reader can see, and the
      readable contents are the same before and after it. */
  lemma FillTouchesNoReadableSlot<E>(states: seq<Sys<E>>, steps: seq<Step<E>>, i: nat)
    requires Run(states, steps) && i < |steps| && steps[i].Fill?
    ensures states[i].ring.Ok() && states[i + 1].ring.Ok()
    ensures states[i].writer.Polling? && 0 < |states[i].ring.slots|
    ensures forall j :: 0 <= j < states[i].ring.size ==>
      states[i].ring.Slot(j) != states[i].writer.first + steps[i].k
    ensures states[i + 1].ring.Readable() == states[i].ring.Readable()
  {
    RunInv(states, steps, i);
    RunInv(states, steps, i + 1);
    var s := states[i];
    WritableIsFree(s.ring, s.writer.first, s.writer.len, steps[i].k);
    FillInvisible(s.ring, s.writer.first, s.writer.len, steps[i].k, steps[i].e);
  }
}
