/**
 Reading decoded audio in pieces of any size (audio/audio_hw.c, in_unshorten_read): the decoder gives
 chunks of its own size, and what does not fit a read waits in an accumulator.
 */
module Unshorten {
  import opened Basics

  newtype byte = x: int | 0 <= x < 256

  /** What one call of the decoder reports: corrupt data, a chunk of output, a wish for input together
      with whether input could be read and supplied, or nothing. */
  datatype Status = Corrupt | Output(chunk: seq<byte>) | NeedInput(supplied: bool) | Nothing

  /** The bytes delivered, the accumulator afterwards, the bytes it had no room for, and how many of the
      decoder's answers were used. */
  datatype Outcome = Outcome(out: seq<byte>, acc: seq<byte>, lost: seq<byte>, used: nat)

  /** `r` behind bytes that were delivered before. */
  function After(got: seq<byte>, r: Outcome): Outcome { r.(out := got + r.out) }

  lemma AfterBoth(a: seq<byte>, b: seq<byte>, r: Outcome)
    ensures After(a, After(b, r)) == After(a + b, r)
  {
    Regroup(a, b, r.out);
  }

  /** The loop over the decoder's answers from the `i`th on, with an empty accumulator and `count` bytes
      still wanted. The answers end where no more audio can be read. */
  function Pull(answers: seq<Status>, i: nat, count: nat, capacity: nat): (r: Outcome)
    requires i <= |answers|
    ensures |r.out| <= count && i <= r.used <= |answers|
    decreases |answers| - i
  {
    if count == 0 || i == |answers| then Outcome([], [], [], i)
    else
      match answers[i]
      case Corrupt => Outcome([], [], [], i + 1)
      case Output(c) =>
        if |c| <= count then After(c, Pull(answers, i + 1, count - |c|, capacity))
        else
          var kept := Min(|c| - count, capacity);
          Outcome(c[..count], c[count..count + kept], c[count + kept..], i + 1)
      case NeedInput(supplied) =>
        if supplied then Pull(answers, i + 1, count, capacity) else Outcome([], [], [], i + 1)
      case Nothing => Pull(answers, i + 1, count, capacity)
  }

  /** One read: first the accumulator, then the decoder. */
  function Read(acc: seq<byte>, answers: seq<Status>, i: nat, bytes: nat, capacity: nat): (r: Outcome)
    requires i <= |answers|
    ensures |r.out| <= bytes && i <= r.used <= |answers|
  {
    if bytes <= |acc| then Outcome(acc[..bytes], acc[bytes..], [], i)
    else After(acc, Pull(answers, i, bytes - |acc|, capacity))
  }

  class InUnshorten {
    const accumulator: array<byte>
    var start: nat
    var avail: nat

    ghost predicate Valid()
      reads this
    {
      start + avail <= accumulator.Length
    }

    ghost function Contents(): seq<byte>
      requires Valid()
      reads this, accumulator
    {
      accumulator[start..start + avail]
    }

    constructor (capacity: nat)
      ensures Valid() && fresh(accumulator) && accumulator.Length == capacity && Contents() == []
    {
      accumulator := new byte[capacity](_ => 0);
      start, avail := 0, 0;
    }

    /** The waiting bytes come first. */
    method DrainAccumulator(bytes: nat) returns (dst: seq<byte>)
      requires Valid()
      modifies this
      ensures Valid()
      ensures dst == old(Contents())[..Min(|old(Contents())|, bytes)]
      ensures Contents() == old(Contents())[Min(|old(Contents())|, bytes)..]
    {
      dst := [];
      ghost var before := Contents();
      assert |before| == avail;
      if avail != 0 {
        var len := avail;
        if len > bytes {
          len := bytes;
        }
        dst := accumulator[start..start + len];
        assert dst == before[..len];
        avail := avail - len;
        start := start + len;
        assert Contents() == before[len..];
      }
    }

    /** The rest of a chunk that was larger than the read; what exceeds the buffer is dropped. */
    method KeepLeftover(p: seq<byte>)
      requires Valid()
      modifies this, accumulator
      ensures Valid() && Contents() == p[..Min(|p|, accumulator.Length)]
    {
      var len := |p|;
      if len > accumulator.Length {
        len := accumulator.Length;
      }
      for i := 0 to len
        invariant accumulator[..i] == p[..i]
      {
        accumulator[i] := p[i];
      }
      start, avail := 0, len;
    }

    /** One decoder answer with `count` bytes still wanted and nothing waiting. */
    method Take(answers: seq<Status>, i: nat, count: nat) returns (dst: seq<byte>, more: bool)
      requires Valid() && Contents() == [] && i < |answers| && count > 0
      modifies this, accumulator
      ensures Valid() && |dst| <= count
      ensures var r := Pull(answers, i, count, accumulator.Length);
        if more then Contents() == [] && r == After(dst, Pull(answers, i + 1, count - |dst|, accumulator.Length))
        else r.out == dst && r.acc == Contents() && r.used == i + 1
    {
      dst, more := [], false;
      var status := answers[i];
      if status.Output? {
        var p := status.chunk;
        if |p| <= count {
          dst, more := p, true;
        } else {
          dst := p[..count];
          KeepLeftover(p[count..]);
          var kept := Min(|p| - count, accumulator.Length);
          assert p[count..][..kept] == p[count..count + kept];
        }
      } else if status.NeedInput? {
        more := status.supplied;
      } else {
        more := status.Nothing?;
      }
      assert more && dst == [] ==> Pull(answers, i, count, accumulator.Length) == Pull(answers, i + 1, count, accumulator.Length);
    }

    /** The loop, entered with nothing waiting. */
    method PullLoop(answers: seq<Status>, i: nat, bytes: nat) returns (dst: seq<byte>, used: nat)
      requires Valid() && Contents() == [] && i <= |answers|
      modifies this, accumulator
      ensures Valid() && |dst| <= bytes
      ensures var r := Pull(answers, i, bytes, accumulator.Length);
        dst == r.out && Contents() == r.acc && used == r.used
    {
      dst, used := [], i;
      var count, more := bytes, true;
      ghost var all := Pull(answers, i, bytes, accumulator.Length);
      while count > 0 && more && used < |answers|
        invariant Valid() && 0 <= count && count + |dst| == bytes && i <= used <= |answers|
        invariant more ==> Contents() == [] && all == After(dst, Pull(answers, used, count, accumulator.Length))
        invariant !more ==> all.out == dst && all.acc == Contents() && all.used == used
        decreases |answers| - used
      {
        var got;
        got, more := Take(answers, used, count);
        if more {
          AfterBoth(dst, got, Pull(answers, used + 1, count - |got|, accumulator.Length));
        }
        used := used + 1;
        dst := dst + got;
        count := count - |got|;
      }
    }

    /** Delivers the bytes in `dst`; the result is their number also after an error. */
    method InUnshortenRead(answers: seq<Status>, i: nat, bytes: nat) returns (ret: int, dst: seq<byte>, used: nat)
      requires Valid() && i <= |answers|
      modifies this, accumulator
      ensures Valid()
      ensures var r := Read(old(Contents()), answers, i, bytes, accumulator.Length);
        dst == r.out && Contents() == r.acc && used == r.used
      ensures ret == |dst|
    {
      ghost var waiting := Contents();
      dst := DrainAccumulator(bytes);
      var count := bytes - |dst|;
      used := i;
      if count > 0 {
        assert dst == waiting;
        var got;
        got, used := PullLoop(answers, i, count);
        dst := dst + got;
        count := count - |got|;
      }
      ret := bytes - count;
    }
  }
}
