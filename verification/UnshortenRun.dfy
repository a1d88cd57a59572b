/**
 Any sequence of reads between init and free delivers the decoder's output in order; nothing depends on
 how the reads are cut.
 */
module UnshortenRun {
  import opened Basics
  import opened Unshorten

  /** All bytes of the decoder's answers from the `i`th up to the `j`th. */
  function Produced(answers: seq<Status>, i: nat, j: nat): seq<byte>
    requires i <= j <= |answers|
    decreases j - i
  {
    if i == j then []
    else (if answers[i].Output? then answers[i].chunk else []) + Produced(answers, i + 1, j)
  }

  lemma {:induction false} ProducedSplit(answers: seq<Status>, i: nat, j: nat, k: nat)
    requires i <= j <= k <= |answers|
    ensures Produced(answers, i, k) == Produced(answers, i, j) + Produced(answers, j, k)
    decreases j - i
  {
    if i < j {
      ProducedSplit(answers, i + 1, j, k);
    }
  }

  lemma CutInThree(c: seq<byte>, i: nat, j: nat)
    requires i <= j <= |c|
    ensures c[..i] + (c[i..j] + c[j..]) == c
  {
  }

  /** All the bytes an outcome accounts for, in their order. */
  function Accounted(r: Outcome): seq<byte> { r.out + (r.acc + r.lost) }

  lemma AccountedAfter(c: seq<byte>, r: Outcome)
    ensures Accounted(After(c, r)) == c + Accounted(r)
  {
  }

  lemma ProducedFirst(answers: seq<Status>, i: nat, j: nat)
    requires i < j <= |answers|
    ensures answers[i].Output? ==> Produced(answers, i, j) == answers[i].chunk + Produced(answers, i + 1, j)
    ensures !answers[i].Output? ==> Produced(answers, i, j) == Produced(answers, i + 1, j)
  {
    assert [] + Produced(answers, i + 1, j) == Produced(answers, i + 1, j);
  }

  /** Delivered, kept and dropped bytes are together exactly the output of the answers used. */
  lemma {:induction false} PullConserves(answers: seq<Status>, i: nat, count: nat, capacity: nat)
    requires i <= |answers|
    ensures var r := Pull(answers, i, count, capacity);
      Accounted(r) == Produced(answers, i, r.used)
    decreases |answers| - i
  {
    if count > 0 && i < |answers| {
      var a, r := answers[i], Pull(answers, i, count, capacity);
      if a.Output? && |a.chunk| <= count {
        PullConserves(answers, i + 1, count - |a.chunk|, capacity);
        AccountedAfter(a.chunk, Pull(answers, i + 1, count - |a.chunk|, capacity));
      } else if a.Output? {
        CutInThree(a.chunk, count, count + Min(|a.chunk| - count, capacity));
      } else if a == NeedInput(true) || a.Nothing? {
        PullConserves(answers, i + 1, count, capacity);
      }
      ProducedFirst(answers, i, r.used);
    }
  }

  lemma ReadConserves(acc: seq<byte>, answers: seq<Status>, i: nat, bytes: nat, capacity: nat)
    requires i <= |answers|
    ensures var r := Read(acc, answers, i, bytes, capacity);
      r.out + (r.acc + r.lost) == acc + Produced(answers, i, r.used)
  {
    if bytes > |acc| {
      PullConserves(answers, i, bytes - |acc|, capacity);
      var r := Pull(answers, i, bytes - |acc|, capacity);
      AccountedAfter(acc, r);
    } else {
      assert acc[..bytes] + acc[bytes..] == acc;
    }
  }

  /** The decoder stops a read: its data is corrupt, or it wants input that is not there. */
  predicate Stops(a: Status) { a == Corrupt || a == NeedInput(false) }

  /** The answers from `i` up to `used` are exactly those that `count` more bytes take: the last one used
      was still wanted and no earlier one stopped the read; and it is enough, the decoder stopped, or there
      are no more answers. */
  ghost predicate UsesExactly(answers: seq<Status>, i: nat, used: nat, count: nat)
    requires i <= used <= |answers|
  {
    && (forall k :: i <= k < used - 1 ==> !Stops(answers[k]))
    && (i < used ==> |Produced(answers, i, used - 1)| < count)
    && (|Produced(answers, i, used)| >= count || used == |answers| || (i < used && Stops(answers[used - 1])))
  }

  lemma {:induction false} PullUses(answers: seq<Status>, i: nat, count: nat, capacity: nat)
    requires i <= |answers|
    ensures var r := Pull(answers, i, count, capacity);
      UsesExactly(answers, i, r.used, count) && |r.out| == Min(count, |Produced(answers, i, r.used)|)
    decreases |answers| - i
  {
    if count > 0 && i < |answers| {
      var a, used := answers[i], Pull(answers, i, count, capacity).used;
      if a.Output? && |a.chunk| <= count {
        PullUses(answers, i + 1, count - |a.chunk|, capacity);
        UsesMore(answers, i, used, count);
      } else if a == NeedInput(true) || a.Nothing? {
        PullUses(answers, i + 1, count, capacity);
        UsesMore(answers, i, used, count);
      } else {
        UsesLast(answers, i, count);
      }
    }
  }

  lemma UsesMore(answers: seq<Status>, i: nat, used: nat, count: nat)
    requires i + 1 <= used <= |answers| && !Stops(answers[i]) && count > 0
    requires answers[i].Output? ==> |answers[i].chunk| <= count
    requires UsesExactly(answers, i + 1, used, if answers[i].Output? then count - |answers[i].chunk| else count)
    ensures UsesExactly(answers, i, used, count)
    ensures |Produced(answers, i, used)| ==
      |Produced(answers, i + 1, used)| + if answers[i].Output? then |answers[i].chunk| else 0
  {
    ProducedFirst(answers, i, used);
    if i + 1 < used {
      ProducedFirst(answers, i, used - 1);
    }
  }

  lemma UsesLast(answers: seq<Status>, i: nat, count: nat)
    requires i < |answers| && count > 0 && (Stops(answers[i]) || (answers[i].Output? && |answers[i].chunk| > count))
    ensures UsesExactly(answers, i, i + 1, count)
    ensures |Produced(answers, i, i + 1)| == if answers[i].Output? then |answers[i].chunk| else 0
  {
    ProducedFirst(answers, i, i + 1);
  }

  /** A read takes the decoder's answers exactly as far as it needs them, and returns what was asked for or
      all that there was. */
  lemma ReadUses(acc: seq<byte>, answers: seq<Status>, i: nat, bytes: nat, capacity: nat)
    requires i <= |answers|
    ensures var r := Read(acc, answers, i, bytes, capacity);
      && |r.out| == Min(bytes, |acc| + |Produced(answers, i, r.used)|)
      && (if bytes <= |acc| then r.used == i else UsesExactly(answers, i, r.used, bytes - |acc|))
  {
    if bytes > |acc| {
      PullUses(answers, i, bytes - |acc|, capacity);
    }
  }

  /** The state after a sequence of reads: all bytes returned, the accumulator, how many bytes were
      dropped, and the answers used. */
  datatype State = State(returned: seq<byte>, acc: seq<byte>, dropped: nat, used: nat)

  function Next(s: State, answers: seq<Status>, bytes: nat, capacity: nat): (s': State)
    requires s.used <= |answers|
    ensures s'.used <= |answers|
  {
    var r := Read(s.acc, answers, s.used, bytes, capacity);
    State(s.returned + r.out, r.acc, s.dropped + |r.lost|, r.used)
  }

  function Reads(s: State, answers: seq<Status>, sizes: seq<nat>, capacity: nat): (s': State)
    requires s.used <= |answers|
    ensures s'.used <= |answers|
    decreases |sizes|
  {
    if sizes == [] then s else Reads(Next(s, answers, sizes[0], capacity), answers, sizes[1..], capacity)
  }

  const FRESH := State([], [], 0, 0)

  /** Returned and waiting bytes are all the decoder's output so far, unless some were dropped. */
  ghost predicate Faithful(s: State, answers: seq<Status>)
    requires s.used <= |answers|
  {
    && |s.returned| + |s.acc| + s.dropped == |Produced(answers, 0, s.used)|
    && (s.dropped == 0 ==> s.returned + s.acc == Produced(answers, 0, s.used))
  }

  lemma NextFaithful(s: State, answers: seq<Status>, bytes: nat, capacity: nat)
    requires s.used <= |answers| && Faithful(s, answers)
    ensures Faithful(Next(s, answers, bytes, capacity), answers)
  {
    var r := Read(s.acc, answers, s.used, bytes, capacity);
    ReadConserves(s.acc, answers, s.used, bytes, capacity);
    ProducedSplit(answers, 0, s.used, r.used);
    assert |r.out| + |r.acc| + |r.lost| == |s.acc| + |Produced(answers, s.used, r.used)|;
    if s.dropped == 0 && r.lost == [] {
      assert r.out + r.acc == s.acc + Produced(answers, s.used, r.used);
      assert s.returned + r.out + r.acc == s.returned + (r.out + r.acc);
      assert s.returned + (s.acc + Produced(answers, s.used, r.used)) == Produced(answers, 0, s.used) + Produced(answers, s.used, r.used);
    }
  }

  lemma {:induction false} ReadsFaithful(s: State, answers: seq<Status>, sizes: seq<nat>, capacity: nat)
    requires s.used <= |answers| && Faithful(s, answers)
    ensures Faithful(Reads(s, answers, sizes, capacity), answers)
    decreases |sizes|
  {
    if sizes != [] {
      NextFaithful(s, answers, sizes[0], capacity);
      ReadsFaithful(Next(s, answers, sizes[0], capacity), answers, sizes[1..], capacity);
    }
  }

  /** For every sequence of read sizes: what was returned is a prefix of the decoder's output, followed by
      what waits, exactly when no bytes were dropped. */
  lemma ReturnedIsPrefixIff(answers: seq<Status>, sizes: seq<nat>, capacity: nat)
    ensures var s := Reads(FRESH, answers, sizes, capacity);
      s.returned + s.acc == Produced(answers, 0, s.used) <==> s.dropped == 0
  {
    ReadsFaithful(FRESH, answers, sizes, capacity);
    var s := Reads(FRESH, answers, sizes, capacity);
    assert |s.returned + s.acc| == |s.returned| + |s.acc|;
  }

  /** Every chunk leaves at most a full accumulator behind one byte. */
  ghost predicate ChunksFit(answers: seq<Status>, capacity: nat) {
    forall k :: 0 <= k < |answers| ==> ChunkFits(answers[k], capacity)
  }

  predicate ChunkFits(a: Status, capacity: nat) {
    a.Output? ==> |a.chunk| <= capacity + 1
  }

  lemma {:induction false} FittingPullDropsNothing(answers: seq<Status>, i: nat, count: nat, capacity: nat)
    requires i <= |answers| && ChunksFit(answers, capacity)
    ensures Pull(answers, i, count, capacity).lost == []
    decreases |answers| - i
  {
    if count > 0 && i < |answers| {
      var a := answers[i];
      assert ChunkFits(a, capacity);
      if a.Output? && |a.chunk| <= count {
        FittingPullDropsNothing(answers, i + 1, count - |a.chunk|, capacity);
      } else if a.NeedInput? || a.Nothing? {
        FittingPullDropsNothing(answers, i + 1, count, capacity);
      }
    }
  }

  lemma {:induction false} FittingReadsDropNothing(s: State, answers: seq<Status>, sizes: seq<nat>, capacity: nat)
    requires s.used <= |answers| && ChunksFit(answers, capacity) && s.dropped == 0
    ensures Reads(s, answers, sizes, capacity).dropped == 0
    decreases |sizes|
  {
    if sizes != [] {
      if sizes[0] > |s.acc| {
        FittingPullDropsNothing(answers, s.used, sizes[0] - |s.acc|, capacity);
      }
      FittingReadsDropNothing(Next(s, answers, sizes[0], capacity), answers, sizes[1..], capacity);
    }
  }

  /** A one-byte read that uses a too large chunk drops bytes of it. */
  lemma {:induction false} OneByteDrops(answers: seq<Status>, i: nat, k: nat, capacity: nat)
    requires i <= k < |answers| && !ChunkFits(answers[k], capacity)
    ensures var r := Pull(answers, i, 1, capacity);
      r.used > i && (r.used > k ==> r.lost != [])
    decreases k - i
  {
    if i < k {
      OneByteDrops(answers, i + 1, k, capacity);
    }
  }

  lemma {:induction false} MoreDropped(s: State, answers: seq<Status>, sizes: seq<nat>, capacity: nat)
    requires s.used <= |answers|
    ensures Reads(s, answers, sizes, capacity).dropped >= s.dropped
    decreases |sizes|
  {
    if sizes != [] {
      MoreDropped(Next(s, answers, sizes[0], capacity), answers, sizes[1..], capacity);
    }
  }

  /** Reading byte by byte comes to the too large chunk. */
  lemma DropsEventually(s: State, answers: seq<Status>, k: nat, capacity: nat) returns (sizes: seq<nat>)
    requires s.used <= k < |answers| && !ChunkFits(answers[k], capacity)
    ensures Reads(s, answers, sizes, capacity).dropped > 0
    decreases k - s.used, |s.acc|
  {
    var s' := Next(s, answers, 1, capacity);
    if s.acc == [] {
      OneByteDrops(answers, s.used, k, capacity);
    }
    if s'.dropped > 0 {
      sizes := [1];
      assert Reads(s', answers, sizes[1..], capacity) == s';
    } else {
      var more := DropsEventually(s', answers, k, capacity);
      sizes := [1] + more;
      assert sizes[1..] == more;
    }
  }

  /** No sequence of reads loses a byte exactly when every chunk is at most one byte larger than the
      accumulator. */
  lemma LosslessIff(answers: seq<Status>, capacity: nat)
    ensures (forall sizes :: Reads(FRESH, answers, sizes, capacity).dropped == 0) <==> ChunksFit(answers, capacity)
  {
    if ChunksFit(answers, capacity) {
      forall sizes ensures Reads(FRESH, answers, sizes, capacity).dropped == 0 {
        FittingReadsDropNothing(FRESH, answers, sizes, capacity);
      }
    } else {
      var k :| 0 <= k < |answers| && !ChunkFits(answers[k], capacity);
      var sizes := DropsEventually(FRESH, answers, k, capacity);
      assert Reads(FRESH, answers, sizes, capacity).dropped > 0;
    }
  }

  /** The decoder never stops a read: no corruption, and input whenever it asks. */
  ghost predicate Steady(answers: seq<Status>) {
    forall k :: 0 <= k < |answers| ==> answers[k] != Corrupt && answers[k] != NeedInput(false)
  }

  lemma {:induction false} SteadyPull(answers: seq<Status>, i: nat, count: nat, capacity: nat)
    requires i <= |answers| && Steady(answers)
    ensures var r := Pull(answers, i, count, capacity);
      |r.out| == count || (r.acc == [] && r.used == |answers|)
    decreases |answers| - i
  {
    if count > 0 && i < |answers| {
      var a := answers[i];
      if a.Output? && |a.chunk| <= count {
        SteadyPull(answers, i + 1, count - |a.chunk|, capacity);
      } else if !a.Output? {
        SteadyPull(answers, i + 1, count, capacity);
      }
    }
  }

  function Sum(sizes: seq<nat>): nat {
    if sizes == [] then 0 else sizes[0] + Sum(sizes[1..])
  }

  /** All that was asked for has been returned, or the decoder's output is exhausted. */
  ghost predicate Satisfied(s: State, answers: seq<Status>, asked: nat) {
    |s.returned| <= asked && (|s.returned| == asked || (s.acc == [] && s.used == |answers|))
  }

  lemma {:induction false} SteadyReads(s: State, answers: seq<Status>, sizes: seq<nat>, capacity: nat, asked: nat)
    requires s.used <= |answers| && Steady(answers) && Satisfied(s, answers, asked)
    ensures Satisfied(Reads(s, answers, sizes, capacity), answers, asked + Sum(sizes))
    decreases |sizes|
  {
    if sizes != [] {
      if sizes[0] > |s.acc| {
        SteadyPull(answers, s.used, sizes[0] - |s.acc|, capacity);
      }
      SteadyReads(Next(s, answers, sizes[0], capacity), answers, sizes[1..], capacity, asked + sizes[0]);
    }
  }

  /** Chunking invariance: with a steady decoder whose chunks fit, the bytes returned by any sequence of
      reads are the first bytes of the decoder's output, as many as were asked for in all. */
  lemma ChunkingInvariance(answers: seq<Status>, sizes: seq<nat>, capacity: nat)
    requires Steady(answers) && ChunksFit(answers, capacity)
    ensures var all := Produced(answers, 0, |answers|);
      Reads(FRESH, answers, sizes, capacity).returned == all[..Min(Sum(sizes), |all|)]
  {
    var s, all := Reads(FRESH, answers, sizes, capacity), Produced(answers, 0, |answers|);
    FittingReadsDropNothing(FRESH, answers, sizes, capacity);
    ReturnedIsPrefixIff(answers, sizes, capacity);
    SteadyReads(FRESH, answers, sizes, capacity, 0);
    ProducedSplit(answers, 0, s.used, |answers|);
    PrefixOfAll(s.returned, s.acc, Produced(answers, s.used, |answers|), Sum(sizes));
    assert s.returned + (s.acc + Produced(answers, s.used, |answers|)) == s.returned + s.acc + Produced(answers, s.used, |answers|);
  }

  lemma PrefixOfAll(returned: seq<byte>, acc: seq<byte>, more: seq<byte>, asked: nat)
    requires |returned| <= asked && (|returned| == asked || (acc == [] && more == []))
    ensures var all := returned + (acc + more); returned == all[..Min(asked, |all|)]
  {
  }
}
