/**
 Memory-mapped transfer of a PCM (tinyalsa/src/pcm.c) in SYNC_PTR mode, for playback and capture,
 at frame granularity. The hardware is part of the object: it may advance by any number of frames the
 direction allows at every pointer synchronisation and between any two frames of a copy.

 The ring refines an unbounded stream. `stream` holds every frame its producer ever put in
 (the application for playback, the hardware for capture), `output` every frame its consumer took
 out, and the ring holds the frames in between, each in the slot its index names modulo the buffer.
 */
module PcmRing {
  import opened Basics
  import opened Division
  import opened PcmPointers

  /** Frames `lo` to `hi` of the stream are in their ring slots. */
  ghost predicate Holds<F>(ring: seq<F>, stream: seq<F>, lo: int, hi: int) {
    && 0 < |ring|
    && 0 <= lo <= hi <= |stream|
    && forall i :: lo <= i < hi ==> ring[i % |ring|] == stream[i]
  }

  lemma StoreHolds<F>(ring: seq<F>, stream: seq<F>, lo: int, hi: int, at: nat, f: F)
    requires Holds(ring, stream, lo, hi) && hi <= at < lo + |ring|
    ensures Holds(ring[at % |ring| := f], stream, lo, hi)
  {
    forall i | lo <= i < hi ensures i % |ring| != at % |ring| {
      SlotsDiffer(i, at, |ring|);
    }
  }

  lemma ExtendHolds<F>(ring: seq<F>, stream: seq<F>, lo: int, hi: int, more: seq<F>)
    requires Holds(ring, stream, lo, hi) && hi == |stream|
    requires forall k :: 0 <= k < |more| ==> ring[(hi + k) % |ring|] == more[k]
    ensures Holds(ring, stream + more, lo, hi + |more|)
  {
    forall i | lo <= i < hi + |more| ensures ring[i % |ring|] == (stream + more)[i] {
      if i >= hi {
        assert ring[(hi + (i - hi)) % |ring|] == more[i - hi];
      }
    }
  }

  /** The frames already in the next slots of the buffer join the stream. */
  lemma ForwardHolds<F>(ring: seq<F>, stream: seq<F>, lo: int, hi: int, o: nat, frames: nat)
    requires Holds(ring, stream, lo, hi) && hi == |stream| && o == hi % |ring| && o + frames <= |ring|
    ensures Holds(ring, stream + ring[o..o + frames], lo, hi + frames)
  {
    var more := ring[o..o + frames];
    forall k | 0 <= k < frames ensures ring[(hi + k) % |ring|] == more[k] {
      NextSlots(hi, k, |ring|);
    }
    ExtendHolds(ring, stream, lo, hi, more);
  }

  lemma PrefixStays<F>(s: seq<F>, more: seq<F>, n: nat)
    requires n <= |s|
    ensures (s + more)[..n] == s[..n]
  {
  }

  lemma PrefixGrows<F>(s: seq<F>, i: nat, j: nat)
    requires i <= j <= |s|
    ensures s[..i] + s[i..j] == s[..j]
  {
  }

  /** Fewer frames are held from a later one on. */
  lemma HoldsFrom<F>(ring: seq<F>, stream: seq<F>, lo: int, lo': int, hi: int)
    requires Holds(ring, stream, lo, hi) && lo <= lo' <= hi
    ensures Holds(ring, stream, lo', hi)
  {
  }

  /** `b` with `xs` written over the places from `offset` on. */
  ghost function Patch<F>(b: seq<F>, offset: nat, xs: seq<F>): seq<F>
    requires offset + |xs| <= |b|
  {
    b[..offset] + xs + b[offset + |xs|..]
  }

  lemma PatchMore<F>(b: seq<F>, offset: nat, s: seq<F>, at: nat, i: nat)
    requires at + i < |s| && offset + i < |b|
    ensures Patch(b, offset, s[at..at + i])[offset + i := s[at + i]] == Patch(b, offset, s[at..at + (i + 1)])
  {
    assert s[at..at + (i + 1)] == s[at..at + i] + [s[at + i]];
  }

  /** Frames `xs` moved between the caller's buffer `b0` (at `offset`) and the stream after `m0`: the
      moved frames are now `m1` and the buffer `b1`. */
  ghost predicate MovedBy<F>(input: bool, m0: seq<F>, b0: seq<F>, offset: nat, xs: seq<F>, m1: seq<F>, b1: seq<F>) {
    && offset + |xs| <= |b0|
    && m1 == m0 + xs
    && b1 == Patch(b0, offset, xs)
    && (!input ==> xs == b0[offset..offset + |xs|])
  }

  lemma MovedTwice<F>(input: bool, m0: seq<F>, b0: seq<F>, offset: nat, xs: seq<F>, m1: seq<F>, b1: seq<F>,
                      ys: seq<F>, m2: seq<F>, b2: seq<F>)
    requires MovedBy(input, m0, b0, offset, xs, m1, b1)
    requires MovedBy(input, m1, b1, offset + |xs|, ys, m2, b2)
    ensures MovedBy(input, m0, b0, offset, xs + ys, m2, b2)
  {
    if !input {
      assert b1 == b0;
    }
  }

  lemma PatchSame<F>(b: seq<F>, offset: nat, n: nat)
    requires offset + n <= |b|
    ensures Patch(b, offset, b[offset..offset + n]) == b
  {
  }

  /** A segment that ends with the buffer leaves the pointer at slot 0. */
  lemma SegmentEnd(total: nat, frames: nat, n: nat)
    requires 0 < n && total % n + frames == n
    ensures (total + frames) % n == 0
  {
    assert (total / n + 1) * n == (total / n) * n + n;
    DivUnique(total + frames, total / n + 1, 0, n);
  }

  lemma SegmentMore<F>(ring: seq<F>, o: nat, b: seq<F>, src: nat, i: nat)
    requires o + i < |ring| && src + i < |b| && ring[o..o + i] == b[src..src + i]
    ensures ring[o + i := b[src + i]][o..o + (i + 1)] == b[src..src + (i + 1)]
  {
    assert ring[o + i := b[src + i]][o..o + (i + 1)] == ring[o..o + i] + [b[src + i]];
  }

  method Put<F>(a: array<F>, k: nat, f: F)
    requires k < a.Length
    modifies a
    ensures a[..] == old(a[..])[k := f]
  {
    a[k] := f;
  }

  /** What one turn of the transfer loop does next: move up to `room` frames, wait for the hardware,
      give up with an error, or leave the loop because nothing can be moved. */
  datatype Turn = Move(room: nat) | Sleep | Fail(rc: int) | Leave

  /** How a turn of the loop ends: with more to do, out of patience while asleep, with nothing to move and
      nothing to wait for, with an error, or with a wait that failed. */
  datatype Ending = GoesOn | Asleep | Stuck | Failed(rc: int) | Rewinds(rc: int)

  /** What holds when the loop ends so: `clean` says that no synchronisation failed, `ran` that the stream was
      running before the last turn, `room` what the hardware has left to move. */
  ghost predicate EndsRightly(end: Ending, running: bool, room: int, clean: bool, ran: bool, short: bool) {
    match end
    case GoesOn => true
    case Asleep => running && (clean && ran ==> room == 0)
    case Stuck => !running && short
    case Failed(rc) => rc < 0 && (clean ==> !running)
    case Rewinds(rc) => rc < 0
  }

  class Pcm<F(0)> {
    const input: bool
    const bufferSize: nat
    const boundary: nat
    const startThreshold: nat
    const ring: array<F>
    var applPtr: nat
    var hwPtr: nat
    var running: bool
    var prepared: bool

    // Unbounded counters: frames the application moved, frames the hardware moved, and the
    // hardware count at the last successful synchronisation; the kernel, and so the hardware, knows the
    // application's count as of then.
    var applTotal: nat
    var hwTotal: nat
    var seenTotal: nat
    var kernelTotal: nat
    ghost var stream: seq<F>
    ghost var output: seq<F>
    ghost var failures: nat  // synchronisations that failed

    /** First frame whose slot the application must not reuse, and end of the valid frames. */
    ghost function Lo(): nat reads this { if input then applTotal else seenTotal }
    ghost function Hi(): nat reads this { if input then hwTotal else applTotal }

    ghost predicate Counters()
      reads this
    {
      && Geometry(bufferSize, boundary)
      && Tracks(applPtr, applTotal, boundary)
      && hwPtr < boundary && Tracks(hwPtr, seenTotal, boundary)
      && if input
         then applTotal <= seenTotal <= hwTotal <= kernelTotal + bufferSize && kernelTotal <= applTotal
         else seenTotal <= hwTotal <= kernelTotal <= applTotal <= seenTotal + bufferSize
    }

    ghost predicate Valid()
      reads this, ring
    {
      && Counters()
      && ring.Length == bufferSize
      && |stream| == Hi()
      && output == stream[..if input then applTotal else hwTotal]
      && Holds(ring[..], stream, Lo(), Hi())
    }

    /** Frames the application may move, as of the last synchronisation. */
    ghost function Room(): int
      reads this
    {
      if input then seenTotal - applTotal else bufferSize + seenTotal - applTotal
    }

    /** Frames the application could move by the hardware's own counter. */
    ghost function HardwareRoom(): int
      reads this
    {
      if input then hwTotal - applTotal else bufferSize + hwTotal - applTotal
    }

    /** The hardware can capture into a slot it knows to be free, or play a frame it knows to be there. */
    ghost predicate HardwareCanMove()
      reads this
    {
      if input then hwTotal < kernelTotal + bufferSize else hwTotal < kernelTotal
    }

    constructor (input: bool, bufferSize: nat, boundary: nat, startThreshold: nat)
      requires Geometry(bufferSize, boundary)
      ensures Valid() && fresh(ring) && stream == [] && output == [] && !running
      ensures this.input == input && this.bufferSize == bufferSize && this.startThreshold == startThreshold
    {
      this.input, this.bufferSize, this.boundary := input, bufferSize, boundary;
      this.startThreshold := startThreshold;
      ring := new F[bufferSize];
      applPtr, hwPtr, running, prepared := 0, 0, false, false;
      applTotal, hwTotal, seenTotal, kernelTotal := 0, 0, 0, 0;
      stream, output, failures := [], [], 0;
    }

    /** The hardware moves one frame, if the direction allows: it plays the next frame or captures `f`. */
    method HardwareFrame(f: F)
      requires Valid()
      modifies this`hwTotal, this`stream, this`output, ring
      ensures Valid() && hwTotal == if old(HardwareCanMove()) then old(hwTotal) + 1 else old(hwTotal)
      ensures stream == if input && old(HardwareCanMove()) then old(stream) + [f] else old(stream)
      ensures old(output) <= output && (input ==> output == old(output))
      ensures !input ==> ring[..] == old(ring[..])
    {
      if input && hwTotal < kernelTotal + bufferSize {
        StoreHolds(ring[..], stream, Lo(), Hi(), hwTotal, f);
        ghost var next := ring[..][hwTotal % bufferSize := f];
        ExtendHolds(next, stream, Lo(), Hi(), [f]);
        ring[hwTotal % bufferSize] := f;
        assert ring[..] == next;
        stream := stream + [f];
        hwTotal := hwTotal + 1;
        assert output == stream[..applTotal];
      } else if !input && hwTotal < kernelTotal {
        output := output + [ring[hwTotal % bufferSize]];
        assert ring[..][hwTotal % bufferSize] == stream[hwTotal];
        hwTotal := hwTotal + 1;
      }
    }

    /** The hardware moves any number of frames. */
    method HardwareRuns()
      requires Valid()
      modifies this`hwTotal, this`stream, this`output, ring
      ensures Valid() && old(hwTotal) <= hwTotal
      ensures old(stream) <= stream && (!input ==> stream == old(stream))
      ensures old(output) <= output && (input ==> output == old(output))
      ensures !input ==> ring[..] == old(ring[..])
    {
      var n: nat := *;
      while 0 < n
        invariant Valid() && old(hwTotal) <= hwTotal
        invariant old(stream) <= stream && (!input ==> stream == old(stream))
        invariant old(output) <= output && (input ==> output == old(output))
        invariant !input ==> ring[..] == old(ring[..])
      {
        var f: F := *;
        HardwareFrame(f);
        n := n - 1;
      }
    }

    /** pcm_sync_ptr: the hardware runs on, then its position becomes visible and the application's reaches
        the kernel, unless the call fails. */
    method SyncPtr() returns (rc: int)
      requires Valid()
      modifies this`hwTotal, this`seenTotal, this`hwPtr, this`failures, this`kernelTotal, this`stream, this`output, ring
      ensures Valid() && (rc == 0 || rc == -1) && old(Room()) <= Room() && old(hwTotal) <= hwTotal
      ensures rc == 0 ==> seenTotal == hwTotal && kernelTotal == applTotal && failures == old(failures)
      ensures rc == -1 ==> failures == old(failures) + 1
      ensures rc == -1 ==> seenTotal == old(seenTotal) && hwPtr == old(hwPtr) && kernelTotal == old(kernelTotal)
      ensures old(stream) <= stream && (!input ==> stream == old(stream))
      ensures old(output) <= output && (input ==> output == old(output))
      ensures !input ==> ring[..] == old(ring[..])
    {
      HardwareRuns();
      if * {
        failures := failures + 1;
        return -1;
      }
      ReducedTracks(hwTotal, boundary);
      hwPtr, seenTotal, kernelTotal := hwTotal % boundary, hwTotal, applTotal;
      return 0;
    }

    /** pcm_mmap_avail: what it computes from the wrapped pointers is the true room, by the hardware's own
        counter if the synchronisation succeeds and by the last one seen if it fails. */
    method Avail() returns (avail: int)
      requires Valid()
      modifies this`hwTotal, this`seenTotal, this`hwPtr, this`failures, this`kernelTotal, this`stream, this`output, ring
      ensures Valid() && old(Room()) <= Room()
      ensures avail == Room() && 0 <= avail <= bufferSize && old(hwTotal) <= hwTotal
      ensures failures == old(failures) || failures == old(failures) + 1
      ensures failures != old(failures) ==> seenTotal == old(seenTotal) && kernelTotal == old(kernelTotal)
      ensures failures == old(failures) ==> seenTotal == hwTotal && kernelTotal == applTotal && avail == HardwareRoom()
      ensures old(stream) <= stream && (!input ==> stream == old(stream))
      ensures old(output) <= output && (input ==> output == old(output))
      ensures !input ==> ring[..] == old(ring[..])
    {
      var _ := SyncPtr();
      if input {
        CaptureAvailExact(hwPtr, applPtr, bufferSize, boundary, seenTotal, applTotal);
        avail := CaptureAvail(hwPtr, applPtr, boundary);
      } else {
        PlaybackAvailExact(hwPtr, applPtr, bufferSize, boundary, seenTotal, applTotal);
        avail := PlaybackAvail(hwPtr, applPtr, bufferSize, boundary);
      }
    }

    /** pcm_mmap_begin: the longest movable run of frames that is contiguous in the buffer. */
    method Begin(wanted: nat) returns (offset: nat, frames: nat)
      requires Valid()
      modifies this`hwTotal, this`seenTotal, this`hwPtr, this`failures, this`kernelTotal, this`stream, this`output, ring
      ensures Valid() && old(Room()) <= Room()
      ensures offset == applPtr % bufferSize == applTotal % bufferSize
      ensures frames == Min(wanted, Min(Room(), bufferSize - offset)) && old(failures) <= failures
      ensures failures == old(failures) ==> seenTotal == hwTotal
      ensures old(stream) <= stream && (!input ==> stream == old(stream))
      ensures old(output) <= output && (input ==> output == old(output))
      ensures !input ==> ring[..] == old(ring[..])
    {
      SameSlot(applPtr, applTotal, bufferSize, boundary);
      offset := applPtr % bufferSize;
      var avail := Avail();
      if avail > bufferSize {
        avail := bufferSize;
      }
      var continuous := bufferSize - offset;
      frames := wanted;
      if frames > avail {
        frames := avail;
      }
      if frames > continuous {
        frames := continuous;
      }
    }

    /** The hardware plays on, then one frame is stored. */
    method StoreFrame(pcmOffset: nat, i: nat, f: F)
      requires Valid() && !input && i < Room()
      requires pcmOffset == applTotal % bufferSize && pcmOffset + i < bufferSize
      modifies this`hwTotal, this`stream, this`output, ring
      ensures Valid() && old(hwTotal) <= hwTotal && stream == old(stream) && old(output) <= output
      ensures ring[..] == old(ring[..])[pcmOffset + i := f]
    {
      HardwareRuns();
      NextSlots(applTotal, i, bufferSize);
      StoreHolds(ring[..], stream, Lo(), Hi(), applTotal + i, f);
      Put(ring, pcmOffset + i, f);
    }

    /** pcm_areas_copy, towards the ring. The hardware may play on between any two stores. */
    method CopyIn(pcmOffset: nat, buf: array<F>, srcOffset: nat, frames: nat)
      requires Valid() && !input && buf != ring
      requires pcmOffset == applTotal % bufferSize && pcmOffset + frames <= bufferSize
      requires frames <= Room() && srcOffset + frames <= buf.Length
      modifies this`hwTotal, this`stream, this`output, ring
      ensures Valid() && old(hwTotal) <= hwTotal && stream == old(stream) && old(output) <= output
      ensures ring[pcmOffset..pcmOffset + frames] == buf[srcOffset..srcOffset + frames]
    {
      for i := 0 to frames
        invariant Valid() && old(hwTotal) <= hwTotal && stream == old(stream) && old(output) <= output
        invariant ring[..][pcmOffset..pcmOffset + i] == buf[..][srcOffset..srcOffset + i]
      {
        ghost var r0 := ring[..];
        StoreFrame(pcmOffset, i, buf[srcOffset + i]);
        SegmentMore(r0, pcmOffset, buf[..], srcOffset, i);
      }
    }

    /** The hardware captures on, then one frame is loaded; `s0` is the stream when the copy began. */
    method LoadFrame(pcmOffset: nat, i: nat, ghost s0: seq<F>) returns (f: F)
      requires Valid() && input && i < Room() && s0 <= stream && applTotal + i < |s0|
      requires pcmOffset == applTotal % bufferSize && pcmOffset + i < bufferSize
      modifies this`hwTotal, this`stream, this`output, ring
      ensures Valid() && old(hwTotal) <= hwTotal && s0 <= stream && output == old(output)
      ensures f == s0[applTotal + i]
    {
      HardwareRuns();
      NextSlots(applTotal, i, bufferSize);
      assert ring[..][(applTotal + i) % bufferSize] == stream[applTotal + i];
      f := ring[pcmOffset + i];
    }

    /** One frame of the copy from the ring. */
    method CopyFrameOut(pcmOffset: nat, buf: array<F>, dstOffset: nat, i: nat, ghost s0: seq<F>, ghost b0: seq<F>)
      requires Valid() && input && buf != ring && i < Room() && s0 <= stream && applTotal + i < |s0|
      requires pcmOffset == applTotal % bufferSize && pcmOffset + i < bufferSize && dstOffset + i < |b0|
      requires buf[..] == Patch(b0, dstOffset, s0[applTotal..applTotal + i])
      modifies this`hwTotal, this`stream, this`output, ring, buf
      ensures Valid() && old(hwTotal) <= hwTotal && s0 <= stream && output == old(output)
      ensures buf[..] == Patch(b0, dstOffset, s0[applTotal..applTotal + (i + 1)])
    {
      var f := LoadFrame(pcmOffset, i, s0);
      PatchMore(b0, dstOffset, s0, applTotal, i);
      Put(buf, dstOffset + i, f);
    }

    /** pcm_areas_copy, from the ring. The hardware may capture on between any two loads. */
    method CopyOut(pcmOffset: nat, buf: array<F>, dstOffset: nat, frames: nat)
      requires Valid() && input && buf != ring
      requires pcmOffset == applTotal % bufferSize && pcmOffset + frames <= bufferSize
      requires frames <= Room() && dstOffset + frames <= buf.Length
      modifies this`hwTotal, this`stream, this`output, ring, buf
      ensures Valid() && old(hwTotal) <= hwTotal && old(stream) <= stream && output == old(output)
      ensures applTotal + frames <= |old(stream)|
      ensures buf[..] == Patch(old(buf[..]), dstOffset, old(stream)[applTotal..applTotal + frames])
    {
      ghost var s0, b0 := stream, buf[..];
      PatchSame(b0, dstOffset, 0);
      assert s0[applTotal..applTotal + 0] == b0[dstOffset..dstOffset + 0];
      for i := 0 to frames
        invariant Valid() && old(hwTotal) <= hwTotal && s0 <= stream && output == old(output)
        invariant buf[..] == Patch(b0, dstOffset, s0[applTotal..applTotal + i])
      {
        CopyFrameOut(pcmOffset, buf, dstOffset, i, s0, b0);
      }
    }

    /** pcm_mmap_appl_forward: the frames between the old and the new pointer join the stream
        (playback) or the output (capture). */
    method ApplForward(frames: nat)
      requires Valid() && frames <= Room() && applTotal % bufferSize + frames <= bufferSize
      modifies this`applPtr, this`applTotal, this`stream, this`output
      ensures Valid() && applTotal == old(applTotal) + frames && Room() == old(Room()) - frames
      ensures !input ==> output == old(output)
      ensures !input ==> var o := old(applTotal) % bufferSize; stream == old(stream) + ring[o..o + frames]
      ensures input ==> stream == old(stream) && applTotal <= |stream|
      ensures input ==> output == old(output) + stream[old(applTotal)..applTotal]
    {
      if input {
        ForwardCapture(frames);
      } else {
        ForwardPlayback(frames);
      }
    }

    method ForwardPlayback(frames: nat)
      requires Valid() && !input && frames <= Room() && applTotal % bufferSize + frames <= bufferSize
      modifies this`applPtr, this`applTotal, this`stream
      ensures Valid() && applTotal == old(applTotal) + frames
      ensures var o := old(applTotal) % bufferSize; stream == old(stream) + ring[o..o + frames]
    {
      ForwardTracks(applPtr, applTotal, frames, bufferSize, boundary);
      ghost var o := applTotal % bufferSize;
      ghost var more := ring[..][o..o + frames];
      ForwardHolds(ring[..], stream, Lo(), Hi(), o, frames);
      PrefixStays(stream, more, hwTotal);
      assert more == ring[o..o + frames];
      stream := stream + more;
      applPtr := Forward(applPtr, frames, boundary);
      applTotal := applTotal + frames;
    }

    method ForwardCapture(frames: nat)
      requires Valid() && input && frames <= Room()
      modifies this`applPtr, this`applTotal, this`output
      ensures Valid() && applTotal == old(applTotal) + frames && applTotal <= |stream|
      ensures output == old(output) + stream[old(applTotal)..applTotal]
    {
      ForwardTracks(applPtr, applTotal, frames, bufferSize, boundary);
      HoldsFrom(ring[..], stream, Lo(), applTotal + frames, Hi());
      PrefixGrows(stream, applTotal, applTotal + frames);
      output := output + stream[applTotal..applTotal + frames];
      applPtr := Forward(applPtr, frames, boundary);
      applTotal := applTotal + frames;
    }

    /** Every frame the application has moved so far, in order. */
    ghost function Moved(): seq<F>
      reads this
    {
      if input then output else stream
    }

    /** pcm_mmap_commit. */
    method Commit(frames: nat) returns (r: int)
      requires Valid() && frames <= Room() && applTotal % bufferSize + frames <= bufferSize
      modifies this`applPtr, this`applTotal
      modifies this`hwTotal, this`seenTotal, this`hwPtr, this`failures, this`kernelTotal, this`stream, this`output, ring
      ensures Valid() && r == if failures == old(failures) then frames as int else -1
      ensures failures == old(failures) ==> seenTotal == hwTotal && kernelTotal == applTotal
      ensures applTotal == old(applTotal) + frames && old(Room()) - frames <= Room() && old(failures) <= failures
      ensures old(stream) <= stream && old(output) <= output
      ensures !input ==> var o := old(applTotal) % bufferSize; Moved() == old(Moved()) + old(ring[o..o + frames])
      ensures input ==> applTotal <= |old(stream)|
      ensures input ==> Moved() == old(Moved()) + old(stream)[old(applTotal)..applTotal]
    {
      ApplForward(frames);
      var rc := SyncPtr();
      if rc != 0 {
        return rc;
      }
      return frames;
    }

    ghost predicate AtBufferStart()
      requires 0 < bufferSize
      reads this
    {
      applTotal % bufferSize == 0
    }

    /** pcm_areas_copy in the direction of the stream; `xs` are the frames copied. */
    method CopySegment(pcmOffset: nat, buf: array<F>, offset: nat, frames: nat) returns (ghost xs: seq<F>)
      requires Valid() && buf != ring
      requires pcmOffset == applTotal % bufferSize && pcmOffset + frames <= bufferSize
      requires frames <= Room() && offset + frames <= buf.Length
      modifies this`hwTotal, this`stream, this`output, ring, buf
      ensures Valid() && |xs| == frames && old(stream) <= stream && Moved() == old(Moved())
      ensures buf[..] == Patch(old(buf[..]), offset, xs)
      ensures !input ==> xs == old(buf[..])[offset..offset + frames] && ring[pcmOffset..pcmOffset + frames] == xs
      ensures input ==> applTotal + frames <= |old(stream)| && xs == old(stream)[applTotal..applTotal + frames]
    {
      ghost var b0, s0 := buf[..], stream;
      if input {
        CopyOut(pcmOffset, buf, offset, frames);
        xs := s0[applTotal..applTotal + frames];
      } else {
        CopyIn(pcmOffset, buf, offset, frames);
        xs := b0[offset..offset + frames];
        PatchSame(b0, offset, frames);
      }
    }

    /** One turn of the loop of pcm_mmap_transfer_areas: up to the end of the buffer or of the request.
        `xs` are the frames moved; capture writes them into the caller's buffer, playback takes them
        from there. */
    method MoveSegment(buf: array<F>, offset: nat, size: nat) returns (r: int, frames: nat, ghost xs: seq<F>)
      requires Valid() && buf != ring
      requires size <= Room() && offset + size <= buf.Length
      modifies this`applPtr, this`applTotal
      modifies this`hwTotal, this`seenTotal, this`hwPtr, this`failures, this`kernelTotal, this`stream, this`output, ring
      modifies buf
      ensures Valid() && ((r == frames && kernelTotal == applTotal) || (r == -1 && old(failures) < failures))
      ensures old(failures) <= failures
      ensures frames == |xs| <= size && (0 < size ==> 0 < frames)
      ensures frames < size ==> AtBufferStart() && !old(AtBufferStart())
      ensures old(Room()) - frames <= Room()
      ensures MovedBy(input, old(Moved()), old(buf[..]), offset, xs, Moved(), buf[..])
    {
      var pcmOffset;
      pcmOffset, frames := Begin(size);
      if frames < size {
        SegmentEnd(applTotal, frames, bufferSize);
      }
      r, xs := CopyAndCommit(pcmOffset, buf, offset, frames);
    }

    /** The copy and the commit of one segment. */
    method CopyAndCommit(pcmOffset: nat, buf: array<F>, offset: nat, frames: nat) returns (r: int, ghost xs: seq<F>)
      requires Valid() && buf != ring
      requires pcmOffset == applTotal % bufferSize && pcmOffset + frames <= bufferSize
      requires frames <= Room() && offset + frames <= buf.Length
      modifies this`applPtr, this`applTotal
      modifies this`hwTotal, this`seenTotal, this`hwPtr, this`failures, this`kernelTotal, this`stream, this`output, ring
      modifies buf
      ensures Valid() && ((r == frames && kernelTotal == applTotal) || (r == -1 && old(failures) < failures)) && |xs| == frames
      ensures old(failures) <= failures
      ensures applTotal == old(applTotal) + frames && old(Room()) - frames <= Room()
      ensures MovedBy(input, old(Moved()), old(buf[..]), offset, xs, Moved(), buf[..])
    {
      ghost var m0, b0, s0, at := Moved(), buf[..], stream, applTotal;
      xs := CopySegment(pcmOffset, buf, offset, frames);
      ghost var s1 := stream;
      r := Commit(frames);
      if input {
        assert s1[at..at + frames] == s0[at..at + frames];
      }
    }

    /** The segment behind the `moved` frames already moved. */
    method NextSegment(buf: array<F>, offset: nat, moved: nat, size: nat, ghost m0: seq<F>, ghost b0: seq<F>, ghost xs: seq<F>)
      returns (r: int, frames: nat, ghost xs': seq<F>)
      requires Valid() && buf != ring && moved < size && size - moved <= Room() && offset + size <= buf.Length
      requires |xs| == moved && MovedBy(input, m0, b0, offset, xs, Moved(), buf[..])
      modifies this`applPtr, this`applTotal
      modifies this`hwTotal, this`seenTotal, this`hwPtr, this`failures, this`kernelTotal, this`stream, this`output, ring
      modifies buf
      ensures Valid() && ((r == frames && kernelTotal == applTotal) || (r == -1 && old(failures) < failures))
      ensures old(failures) <= failures
      ensures 0 < frames && moved + frames == |xs'| <= size
      ensures moved + frames < size ==> AtBufferStart() && !old(AtBufferStart())
      ensures old(Room()) - frames <= Room()
      ensures MovedBy(input, m0, b0, offset, xs', Moved(), buf[..])
    {
      ghost var m, b := Moved(), buf[..];
      ghost var ys;
      r, frames, ys := MoveSegment(buf, offset + moved, size - moved);
      MovedTwice(input, m0, b0, offset, xs, m, b, ys, Moved(), buf[..]);
      xs' := xs + ys;
    }

    /** pcm_mmap_transfer_areas. A request no larger than the room takes at most two segments and,
        unless a commit fails, moves every frame, once and in order. */
    method TransferAreas(buf: array<F>, offset: nat, size: nat)
      returns (r: int, moved: nat, ghost segments: nat, ghost xs: seq<F>)
      requires Valid() && buf != ring
      requires size <= Room() && offset + size <= buf.Length
      modifies this`applPtr, this`applTotal
      modifies this`hwTotal, this`seenTotal, this`hwPtr, this`failures, this`kernelTotal, this`stream, this`output, ring
      modifies buf
      ensures Valid() && if r == -1 then moved <= size && old(failures) < failures else r == size == moved
      ensures r == size && 0 < size ==> kernelTotal == applTotal
      ensures segments <= 2 && old(failures) <= failures
      ensures old(Room()) - moved <= Room()
      ensures |xs| == moved && MovedBy(input, old(Moved()), old(buf[..]), offset, xs, Moved(), buf[..])
    {
      ghost var m0, b0 := Moved(), buf[..];
      moved, segments, xs := 0, 0, [];
      while moved < size
        invariant Valid() && moved == |xs| <= size && old(failures) <= failures && (0 < moved ==> kernelTotal == applTotal)
        invariant old(Room()) - moved <= Room()
        invariant segments == 0 ==> moved == 0
        invariant segments == 1 && moved < size ==> AtBufferStart()
        invariant segments <= 2 && (segments == 2 ==> moved == size)
        invariant MovedBy(input, m0, b0, offset, xs, Moved(), buf[..])
        decreases size - moved
      {
        var commit, frames;
        commit, frames, xs := NextSegment(buf, offset, moved, size, m0, b0, xs);
        moved := moved + frames;
        segments := segments + 1;
        if commit < 0 {
          return commit, moved, segments, xs;
        }
      }
      r := moved;
    }

    /** pcm_prepare. */
    method Prepare() returns (rc: int)
      modifies this`prepared
      ensures if rc == 0 then prepared else rc == -1 && !prepared && !old(prepared)
    {
      if !prepared {
        if * {
          return -1;
        }
        prepared := true;
      }
      return 0;
    }

    /** pcm_start. */
    method Start() returns (rc: int)
      requires Valid()
      modifies this`running, this`prepared
      modifies this`hwTotal, this`seenTotal, this`hwPtr, this`failures, this`kernelTotal, this`stream, this`output, ring
      ensures Valid() && old(Room()) <= Room() && Moved() == old(Moved())
      ensures (rc == 0 && running && prepared) || (rc == -1 && running == old(running))
      ensures kernelTotal == applTotal || (kernelTotal == old(kernelTotal) && (rc == 0 ==> old(failures) < failures))
      ensures old(failures) <= failures && (old(prepared) ==> prepared)
    {
      rc := Prepare();
      if rc != 0 {
        return rc;
      }
      var _ := SyncPtr();
      if * {
        return -1;
      }
      running := true;
      return 0;
    }

    /** pcm_avail_update synchronises twice, so that a single failure hides nothing that had happened before
        the call. */
    method AvailUpdate() returns (avail: int)
      requires Valid()
      modifies this`hwTotal, this`seenTotal, this`hwPtr, this`failures, this`kernelTotal, this`stream, this`output, ring
      ensures Valid() && Moved() == old(Moved()) && old(Room()) <= avail == Room() <= bufferSize
      ensures old(failures) <= failures
      ensures failures <= old(failures) + 1 ==> old(HardwareRoom()) <= avail && kernelTotal == applTotal
      ensures kernelTotal == old(kernelTotal) || kernelTotal == applTotal
      ensures failures == old(failures) ==> avail == HardwareRoom()
    {
      var _ := SyncPtr();
      avail := Avail();
    }

    /** The head of the loop of pcm_mmap_transfer: measure the room, start the stream once enough is
        queued, and decide. */
    method Decide() returns (turn: Turn)
      requires Valid()
      modifies this`running, this`prepared
      modifies this`hwTotal, this`seenTotal, this`hwPtr, this`failures, this`kernelTotal, this`stream, this`output, ring
      ensures Valid() && Moved() == old(Moved()) && old(failures) <= failures && (old(running) ==> running)
      ensures kernelTotal == old(kernelTotal) || kernelTotal == applTotal
      ensures running && !old(running) ==> bufferSize - old(Room()) >= startThreshold
      ensures !running && !turn.Fail? ==> bufferSize - Room() < startThreshold
      ensures turn.Move? ==> 0 < turn.room && old(Room()) <= turn.room <= Room()
      ensures turn.Sleep? ==> running && old(Room()) == 0 && (old(running) ==> Room() == 0)
      ensures turn.Sleep? && failures <= old(failures) + 1 ==> old(HardwareRoom()) == 0 && kernelTotal == applTotal
      ensures turn.Sleep? && failures == old(failures) && old(running) ==> HardwareRoom() == 0
      ensures turn.Leave? ==> !running && Room() == 0 && bufferSize < startThreshold
      ensures turn.Fail? ==> turn.rc < 0 && !running && bufferSize - old(Room()) >= startThreshold
    {
      var avail := AvailUpdate();
      if !running && bufferSize - avail >= startThreshold {
        var rc := Start();
        if rc < 0 {
          return Fail(rc);
        }
      }
      if running && avail < 1 {
        return Sleep;
      }
      return if avail == 0 then Leave else Move(avail);
    }

    /** The next `size` frames behind those already moved. */
    method MoveMore(buf: array<F>, copied: nat, size: nat, ghost m0: seq<F>, ghost b0: seq<F>, ghost xs: seq<F>)
      returns (r: int, copied': nat, ghost xs': seq<F>)
      requires Valid() && buf != ring && 0 < size <= Room() && copied + size <= buf.Length
      requires |xs| == copied && MovedBy(input, m0, b0, 0, xs, Moved(), buf[..])
      modifies this`applPtr, this`applTotal
      modifies this`hwTotal, this`seenTotal, this`hwPtr, this`failures, this`kernelTotal, this`stream, this`output, ring
      modifies buf
      ensures Valid() && |xs'| == copied' <= copied + size && copied <= copied' && old(failures) <= failures
      ensures if r < 0 then old(failures) < failures else copied' == copied + size && kernelTotal == applTotal
      ensures MovedBy(input, m0, b0, 0, xs', Moved(), buf[..])
    {
      ghost var m, b := Moved(), buf[..];
      var moved;
      ghost var segments, ys;
      r, moved, segments, ys := TransferAreas(buf, copied, size);
      MovedTwice(input, m0, b0, 0, xs, m, b, ys, Moved(), buf[..]);
      xs' := xs + ys;
      copied' := copied + moved;
    }

    /** The head of the loop and, if frames can be moved, their transfer. */
    method OneTurn(buf: array<F>, copied: nat, frames: nat, ghost m0: seq<F>, ghost b0: seq<F>, ghost xs: seq<F>)
      returns (turn: Turn, r: int, copied': nat, ghost xs': seq<F>)
      requires Valid() && buf != ring && copied < frames <= buf.Length
      requires |xs| == copied && MovedBy(input, m0, b0, 0, xs, Moved(), buf[..])
      modifies this`running, this`prepared
      modifies this`applPtr, this`applTotal
      modifies this`hwTotal, this`seenTotal, this`hwPtr, this`failures, this`kernelTotal, this`stream, this`output, ring
      modifies buf
      ensures Valid() && copied <= copied' == |xs'| <= frames
      ensures old(failures) <= failures && (old(running) ==> running)
      ensures turn.Fail? ==> turn.rc < 0 && !running
      ensures turn.Leave? ==> bufferSize < startThreshold && !running
      ensures turn.Sleep? ==> copied' == copied && running && (old(kernelTotal == applTotal) ==> kernelTotal == applTotal)
      ensures turn.Sleep? && failures <= old(failures) + 1 ==> old(HardwareRoom()) == 0 && kernelTotal == applTotal
      ensures turn.Sleep? && failures == old(failures) && old(running) ==> HardwareRoom() == 0
      ensures turn.Move? ==>
        0 < turn.room && if r < 0 then old(failures) < failures
                         else copied' == copied + Min(frames - copied, turn.room) && kernelTotal == applTotal
      ensures MovedBy(input, m0, b0, 0, xs', Moved(), buf[..])
    {
      r, copied', xs' := 0, copied, xs;
      turn := Decide();
      if turn.Move? {
        r, copied', xs' := MoveMore(buf, copied, Min(frames - copied, turn.room), m0, b0, xs);
      }
    }

    /** One turn of the loop of pcm_mmap_transfer, with `left` more returns of pcm_wait to live through. */
    method LoopTurn(buf: array<F>, copied: nat, frames: nat, left: nat, ghost m0: seq<F>, ghost b0: seq<F>, ghost xs: seq<F>)
      returns (end: Ending, copied': nat, left': nat, ghost xs': seq<F>)
      requires Valid() && buf != ring && copied < frames <= buf.Length
      requires |xs| == copied && MovedBy(input, m0, b0, 0, xs, Moved(), buf[..])
      modifies this`running, this`prepared
      modifies this`applPtr, this`applTotal
      modifies this`hwTotal, this`seenTotal, this`hwPtr, this`failures, this`kernelTotal, this`stream, this`output, ring
      modifies buf
      ensures Valid() && copied <= copied' == |xs'| <= frames && left' <= left
      ensures MovedBy(input, m0, b0, 0, xs', Moved(), buf[..])
      ensures old(failures) <= failures && (old(running) || left' < left ==> running)
      ensures EndsRightly(end, running, HardwareRoom(), failures == old(failures), old(running), bufferSize < startThreshold)
      ensures end.Asleep? ==> copied' < frames && left == 0
      ensures end.GoesOn? ==> copied < copied' || left' < left
      ensures end.GoesOn? && (copied == 0 || old(kernelTotal == applTotal)) ==> copied' == 0 || kernelTotal == applTotal
    {
      var turn, commit;
      left' := left;
      turn, commit, copied', xs' := OneTurn(buf, copied, frames, m0, b0, xs);
      match turn
      case Fail(rc) =>
        end := Failed(rc);
      case Leave =>
        end := Stuck;
      case Sleep =>
        end, left' := AfterSleep(left);
      case Move(_) =>
        end := if commit < 0 then Failed(commit) else GoesOn;
    }

    /** pcm_wait fails or returns; out of patience, the call is left asleep. */
    method AfterSleep(left: nat) returns (end: Ending, left': nat)
      ensures left' <= left && (end.GoesOn? <==> left' < left)
      ensures end.GoesOn? || (end.Asleep? && left == 0) || (end.Rewinds? && end.rc < 0)
    {
      left' := left;
      var err: int := *;
      if err < 0 {
        end := Rewinds(err);
      } else if left == 0 {
        end := Asleep;
      } else {
        end, left' := GoesOn, left - 1;
      }
    }

    /** pcm_mmap_transfer. `patience` bounds the returns of pcm_wait that the call lives through. A failed
        wait rewinds the application pointer, and then the object is no longer valid. When the loop ends by
        itself, every frame was moved and the hardware knows of all of them. A call that is still
        asleep although no synchronisation failed has a hardware that left it no frame to move. */
    method Transfer(buf: array<F>, frames: nat, patience: nat)
      returns (r: int, copied: nat, end: Ending, ghost xs: seq<F>)
      requires Valid() && buf != ring && frames <= buf.Length
      modifies this, ring, buf
      ensures |xs| == copied <= frames
      ensures MovedBy(input, old(Moved()), old(buf[..]), 0, xs, Moved(), buf[..])
      ensures r == if end.Failed? || end.Rewinds? then end.rc else 0
      ensures if end.Rewinds? then !prepared && !running && applPtr == 0 else Valid()
      ensures EndsRightly(end, running, HardwareRoom(), failures == old(failures), old(running) || 0 < patience,
                bufferSize < startThreshold)
      ensures end.GoesOn? ==> copied == frames && (0 < frames ==> kernelTotal == applTotal)
      ensures end.Asleep? ==> copied < frames
    {
      ghost var m0, b0 := Moved(), buf[..];
      copied, end, xs := 0, GoesOn, [];
      var left: nat := patience;
      while copied < frames && end.GoesOn?
        invariant Valid() && copied == |xs| <= frames && left <= patience && (end.Asleep? ==> copied < frames)
        invariant MovedBy(input, m0, b0, 0, xs, Moved(), buf[..])
        invariant end.GoesOn? && 0 < copied ==> kernelTotal == applTotal
        invariant old(failures) <= failures && (old(running) || left < patience ==> running)
        invariant EndsRightly(end, running, HardwareRoom(), failures == old(failures), old(running) || 0 < patience,
                    bufferSize < startThreshold)
        decreases end.GoesOn?, frames - copied, left
      {
        end, copied, left, xs := LoopTurn(buf, copied, frames, left, m0, b0, xs);
      }
      r := 0;
      if end.Failed? || end.Rewinds? {
        r := end.rc;
      }
      if end.Rewinds? {
        prepared, running, applPtr := false, false, 0;
      }
    }
  }
}
