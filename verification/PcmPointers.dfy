/**
 Pointer arithmetic of the memory-mapped PCM ring (tinyalsa/src/pcm.c): the boundary at which the
 application and hardware pointers wrap, and the availability computed from them in 32-bit
 arithmetic. A pointer stands for an unbounded frame counter modulo the boundary; the application
 pointer may rest on the boundary itself, because its wrap test is strict.
 */
module PcmPointers {
  import opened Division

  const UINT_RANGE := 0x1_0000_0000
  const INT_MAX := 0x7fff_ffff

  /** Conversion of an unsigned 32-bit value to a signed one. */
  function ToInt(u: int): int
    requires 0 <= u < UINT_RANGE
  {
    if u <= INT_MAX then u else u - UINT_RANGE
  }

  function Pow2(k: nat): nat {
    if k == 0 then 1 else 2 * Pow2(k - 1)
  }

  /** The boundary loop of pcm_set_config. The products and the difference stay within 32 bits. */
  method ComputeBoundary(bufferSize: nat) returns (boundary: nat, ghost k: nat)
    requires 1 <= bufferSize <= INT_MAX
    ensures boundary == bufferSize * Pow2(k)
    ensures INT_MAX - bufferSize < boundary * 2
    ensures 0 < k ==> boundary + bufferSize <= INT_MAX
    ensures 0 < k <==> bufferSize <= INT_MAX / 3
    ensures boundary < UINT_RANGE
  {
    boundary, k := bufferSize, 0;
    while (boundary * 2) % UINT_RANGE <= (INT_MAX - bufferSize) % UINT_RANGE
      invariant 1 <= bufferSize <= boundary <= INT_MAX
      invariant boundary == bufferSize * Pow2(k)
      invariant 0 < k ==> boundary + bufferSize <= INT_MAX && bufferSize <= INT_MAX / 3
      decreases INT_MAX - boundary
    {
      assert bufferSize * Pow2(k + 1) == 2 * (bufferSize * Pow2(k));
      boundary := boundary * 2;
      k := k + 1;
    }
  }

  /** `bufferSize` frames, pointers modulo `boundary`. */
  predicate Geometry(bufferSize: nat, boundary: nat) {
    && 1 <= bufferSize < boundary
    && boundary % bufferSize == 0
    && boundary + bufferSize <= INT_MAX
  }

  /** Every boundary computed for a buffer of at most INT_MAX/3 frames is usable. */
  lemma ComputedGeometry(bufferSize: nat, boundary: nat, k: nat)
    requires 1 <= bufferSize <= INT_MAX / 3
    requires boundary == bufferSize * Pow2(k) && 0 < k && boundary + bufferSize <= INT_MAX
    ensures Geometry(bufferSize, boundary)
  {
    var p := Pow2(k - 1);
    Pow2Positive(k - 1);
    assert Pow2(k) == 2 * p;
    DoubleMultiple(p, bufferSize);
  }

  lemma {:induction false} Pow2Positive(k: nat)
    ensures 1 <= Pow2(k)
  {
    if k > 0 { Pow2Positive(k - 1); }
  }

  lemma DoubleMultiple(p: nat, n: nat)
    requires 1 <= p && 1 <= n
    ensures n < n * (2 * p) && (n * (2 * p)) % n == 0
  {
    assert n * (2 * p) == (2 * p) * n + 0;
    LapBound(2 * p, n);
    DivUnique(n * (2 * p), 2 * p, 0, n);
  }

  /** Whole laps do not change a remainder. */
  lemma ShiftMod(a: int, c: int, n: nat)
    requires 0 < n
    ensures (a + c * n) % n == a % n
  {
    assert a == (a / n) * n + a % n;
    assert (a / n + c) * n == (a / n) * n + c * n;
    DivUnique(a + c * n, a / n + c, a % n, n);
  }

  /** `ptr` stands for the frame counter `total`. */
  predicate Tracks(ptr: int, total: nat, boundary: nat)
    requires 0 < boundary
  {
    0 <= ptr <= boundary && (total - ptr) % boundary == 0
  }

  /** pcm_mmap_playback_avail, on 32-bit machine integers. */
  function PlaybackAvail(hwPtr: nat, applPtr: nat, bufferSize: nat, boundary: nat): int {
    var avail := ToInt((hwPtr + bufferSize - applPtr) % UINT_RANGE);
    if avail < 0 then ToInt((avail + boundary) % UINT_RANGE)
    else if avail >= ToInt(boundary % UINT_RANGE) then ToInt((avail - boundary) % UINT_RANGE)
    else avail
  }

  /** pcm_mmap_capture_avail, on 32-bit machine integers. */
  function CaptureAvail(hwPtr: nat, applPtr: nat, boundary: nat): int {
    var avail := ToInt((hwPtr - applPtr) % UINT_RANGE);
    if avail < 0 then ToInt((avail + boundary) % UINT_RANGE) else avail
  }

  /** pcm_mmap_appl_forward. */
  function Forward(applPtr: nat, frames: nat, boundary: nat): nat {
    var p := (applPtr + frames) % UINT_RANGE;
    if p > boundary then p - boundary else p
  }

  /** Two counters in the same lap differ by the pointer difference, give or take one lap. */
  lemma PointerDifference(hwPtr: nat, applPtr: nat, hwTotal: nat, applTotal: nat, boundary: nat)
    returns (laps: int)
    requires 0 < boundary && Tracks(hwPtr, hwTotal, boundary) && Tracks(applPtr, applTotal, boundary)
    ensures hwPtr - applPtr == hwTotal - applTotal + laps * boundary
  {
    var h := (hwTotal - hwPtr) / boundary;
    var a := (applTotal - applPtr) / boundary;
    laps := a - h;
    assert hwTotal - hwPtr == h * boundary;
    assert applTotal - applPtr == a * boundary;
    assert (a - h) * boundary == a * boundary - h * boundary;
  }

  /** A value in the signed range survives reduction to 32 bits and conversion back. */
  lemma Residue(v: int)
    requires -INT_MAX <= v <= INT_MAX
    ensures ToInt(v % UINT_RANGE) == v
  {
  }

  /** In range, the machine arithmetic is the plain one: fold the difference into one lap. */
  lemma PlaybackFold(hwPtr: nat, applPtr: nat, bufferSize: nat, boundary: nat)
    requires Geometry(bufferSize, boundary) && hwPtr < boundary && applPtr <= boundary
    ensures
      var v := hwPtr + bufferSize - applPtr;
      PlaybackAvail(hwPtr, applPtr, bufferSize, boundary) ==
        if v < 0 then v + boundary else if v >= boundary then v - boundary else v
  {
    var v := hwPtr + bufferSize - applPtr;
    Residue(v);
    Residue(boundary);
    if v < 0 {
      Residue(v + boundary);
    } else if v >= boundary {
      Residue(v - boundary);
    }
  }

  /** Playback availability is the true free space exactly when that is a legal pointer distance;
      no intermediate value leaves the 32-bit range, even with the application pointer resting on
      the boundary. */
  lemma PlaybackAvailExact(hwPtr: nat, applPtr: nat, bufferSize: nat, boundary: nat, hwTotal: nat, applTotal: nat)
    requires Geometry(bufferSize, boundary)
    requires hwPtr < boundary && Tracks(hwPtr, hwTotal, boundary) && Tracks(applPtr, applTotal, boundary)
    ensures 0 <= PlaybackAvail(hwPtr, applPtr, bufferSize, boundary) < boundary
    ensures PlaybackAvail(hwPtr, applPtr, bufferSize, boundary) == bufferSize + hwTotal - applTotal
       <==> 0 <= bufferSize + hwTotal - applTotal < boundary
    ensures -INT_MAX <= hwPtr + bufferSize - applPtr <= INT_MAX
  {
    var laps := PointerDifference(hwPtr, applPtr, hwTotal, applTotal, boundary);
    LapBound(laps, boundary);
    PlaybackFold(hwPtr, applPtr, bufferSize, boundary);
  }

  /** Capture availability is the true number of captured frames exactly when that is less than a lap. */
  lemma CaptureAvailExact(hwPtr: nat, applPtr: nat, bufferSize: nat, boundary: nat, hwTotal: nat, applTotal: nat)
    requires Geometry(bufferSize, boundary)
    requires hwPtr < boundary && Tracks(hwPtr, hwTotal, boundary) && Tracks(applPtr, applTotal, boundary)
    ensures 0 <= CaptureAvail(hwPtr, applPtr, boundary) < boundary
    ensures CaptureAvail(hwPtr, applPtr, boundary) == hwTotal - applTotal
       <==> 0 <= hwTotal - applTotal < boundary
  {
    var laps := PointerDifference(hwPtr, applPtr, hwTotal, applTotal, boundary);
    LapBound(laps, boundary);
    Residue(hwPtr - applPtr);
    if hwPtr < applPtr {
      Residue(hwPtr - applPtr + boundary);
    }
  }

  /** A boundary equal to the buffer size, which the loop yields above INT_MAX/3 frames, breaks
      playback: an empty ring is reported as having no free space. */
  lemma SingleLapBoundaryFails(bufferSize: nat, ptr: nat)
    requires 1 <= bufferSize <= INT_MAX && ptr < bufferSize
    ensures Tracks(ptr, ptr, bufferSize)
    ensures PlaybackAvail(ptr, ptr, bufferSize, bufferSize) == 0
    ensures bufferSize + ptr - ptr != 0
  {
    assert (ptr + bufferSize - ptr) % UINT_RANGE == bufferSize;
  }

  /** Advancing the application pointer by at most a buffer tracks the advanced counter. */
  lemma ForwardTracks(applPtr: nat, applTotal: nat, frames: nat, bufferSize: nat, boundary: nat)
    requires Geometry(bufferSize, boundary) && frames <= bufferSize
    requires Tracks(applPtr, applTotal, boundary)
    ensures Tracks(Forward(applPtr, frames, boundary), applTotal + frames, boundary)
  {
    var p := Forward(applPtr, frames, boundary);
    assert (applPtr + frames) % UINT_RANGE == applPtr + frames;
    if applPtr + frames > boundary {
      assert applTotal + frames - p == (applTotal - applPtr) + 1 * boundary;
      ShiftMod(applTotal - applPtr, 1, boundary);
    } else {
      assert applTotal + frames - p == applTotal - applPtr;
    }
  }

  /** The hardware's own reduction of its counter. */
  lemma ReducedTracks(total: nat, boundary: nat)
    requires 0 < boundary
    ensures Tracks(total % boundary, total, boundary) && total % boundary < boundary
  {
    var c := total / boundary;
    assert total - total % boundary == 0 + c * boundary;
    ShiftMod(0, c, boundary);
  }

  /** A pointer and the counter it stands for name the same ring slot. */
  lemma SameSlot(ptr: nat, total: nat, bufferSize: nat, boundary: nat)
    requires Geometry(bufferSize, boundary) && Tracks(ptr, total, boundary)
    ensures ptr % bufferSize == total % bufferSize
  {
    var m := boundary / bufferSize;
    var laps := (total - ptr) / boundary;
    assert boundary == m * bufferSize;
    assert total == ptr + laps * boundary;
    assert laps * (m * bufferSize) == (laps * m) * bufferSize;
    ShiftMod(ptr, laps * m, bufferSize);
  }

  /** Frames less than a buffer apart live in different slots. */
  lemma SlotsDiffer(i: nat, j: nat, n: nat)
    requires 0 < n && i < j < i + n
    ensures i % n != j % n
  {
    var d := j - i;
    assert i == (i / n) * n + i % n;
    if i % n + d < n {
      DivUnique(j, i / n, i % n + d, n);
    } else {
      assert (i / n + 1) * n == (i / n) * n + n;
      DivUnique(j, i / n + 1, i % n + d - n, n);
    }
  }

  /** Consecutive frames live in consecutive slots until the end of the buffer. */
  lemma NextSlots(i: nat, k: nat, n: nat)
    requires 0 < n && i % n + k < n
    ensures (i + k) % n == i % n + k
  {
    DivUnique(i + k, i / n, i % n + k, n);
  }
}
