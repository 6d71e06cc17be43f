// tinyalsa/pcm.c: the memory-mapped ring of a PCM device.
//
// The kernel and the application keep two pointers that wrap at `boundary`, a
// power-of-two multiple of the ring size.  Here each pointer is paired with the
// unbounded count it stands for, and the ring with the stream of frames that
// passes through it.

module RingArithmetic {

  const INT_MAX := 0x7FFF_FFFF
  const WORD := 0x1_0000_0000

  // An `unsigned int`: arithmetic modulo 2^32.
  function U32(x: int): (r: int)
    ensures 0 <= r < WORD
  {
    x % WORD
  }

  // The `int` with the same 32 bits as an `unsigned int`.
  function AsInt(x: int): (r: int)
    requires 0 <= x < WORD
    ensures -INT_MAX - 1 <= r <= INT_MAX
  {
    if x <= INT_MAX then x else x - WORD
  }

  function Pow2(k: nat): (r: nat)
    ensures r >= 1
  {
    if k == 0 then 1 else 2 * Pow2(k - 1)
  }

  function Min(x: int, y: int): int {
    if x <= y then x else y
  }

  // The number of free frames as pcm_mmap_playback_avail computes it.
  function PlaybackAvail(hwPtr: int, applPtr: int, bufferSize: int, boundary: int): int
    requires 0 <= boundary <= INT_MAX
  {
    var avail := AsInt(U32(hwPtr + bufferSize - applPtr));
    if avail < 0 then AsInt(U32(avail + boundary))
    else if avail > AsInt(boundary) then AsInt(U32(avail - boundary))
    else avail
  }

  // The number of readable frames as pcm_mmap_capture_avail computes it.
  function CaptureAvail(hwPtr: int, applPtr: int, boundary: int): int {
    var avail := AsInt(U32(hwPtr - applPtr));
    if avail < 0 then AsInt(U32(avail + boundary)) else avail
  }

  // pcm_mmap_appl_forward: the strict comparison lets the pointer rest at boundary.
  function Forward(applPtr: int, frames: int, boundary: int): int {
    var next := U32(applPtr + frames);
    if next > boundary then U32(next - boundary) else next
  }

  // Where an unbounded count falls in a ring of m slots.  The spare levels keep
  // the definition folded in the proofs below; SlotStep unfolds it.
  function Slot(count: nat, m: nat): (r: nat)
    requires m > 0
    ensures r < m
  {
    SlotAt(2, count, m)
  }

  function SlotAt(level: nat, count: nat, m: nat): (r: nat)
    requires m > 0
    ensures r < m
    decreases count, level
  {
    if level > 0 then SlotAt(level - 1, count, m)
    else if count < m then count
    else SlotAt(2, count - m, m)
  }

  lemma SlotStep(count: nat, m: nat)
    requires m > 0
    ensures Slot(count, m) == if count < m then count else Slot(count - m, m)
  {
    assert SlotAt(2, count, m) == SlotAt(1, count, m) == SlotAt(0, count, m);
  }

  lemma {:induction false} SlotIsRemainder(count: nat, m: nat)
    requires m > 0
    ensures Slot(count, m) == count % m
  {
    SlotStep(count, m);
    if count >= m {
      SlotIsRemainder(count - m, m);
      RemainderStep(count, m);
    }
  }

  lemma RemainderStep(count: nat, m: nat)
    requires 0 < m <= count
    ensures count % m == (count - m) % m
  {
    var q, q' := (count - m) / m, count / m;
    assert m * (q' - q - 1) == (count - m) % m - count % m;
    ProductBound(m, q' - q - 1);
  }

  lemma ProductBound(m: int, x: int)
    requires m > 0
    ensures x >= 1 ==> m * x >= m
    ensures x <= -1 ==> m * x <= -m
    ensures x == 0 ==> m * x == 0
  {}

  // Moving on by less than one turn wraps at most once.
  lemma {:induction false} SlotMove(count: nat, i: nat, m: nat)
    requires 0 < m && i <= m
    ensures Slot(count + i, m) == if Slot(count, m) + i < m then Slot(count, m) + i else Slot(count, m) + i - m
  {
    SlotStep(count, m);
    SlotStep(count + i, m);
    if count + i >= m {
      SlotStep(count + i - m, m);
    }
    if count >= m {
      SlotMove(count - m, i, m);
    }
  }

  // Counts less than a turn apart occupy different slots.
  lemma SlotsDiffer(k: nat, l: nat, m: nat)
    requires 0 < m && k < l < k + m
    ensures Slot(k, m) != Slot(l, m)
  {
    SlotMove(k, l - k, m);
  }

  // A pointer that wraps at a multiple of the ring size keeps the ring slot.
  lemma {:induction false} SlotOfSlot(count: nat, m: nat, boundary: nat)
    requires 0 < m <= boundary && Slot(boundary, m) == 0
    ensures Slot(Slot(count, boundary), m) == Slot(count, m)
  {
    SlotStep(count, boundary);
    if count >= boundary {
      SlotOfSlot(count - boundary, m, boundary);
      SlotLessMultiple(count, m, boundary);
    }
  }

  lemma {:induction false} SlotLessMultiple(count: nat, m: nat, multiple: nat)
    requires m > 0 && count >= multiple && Slot(multiple, m) == 0
    ensures Slot(count - multiple, m) == Slot(count, m)
    decreases multiple
  {
    SlotStep(count, m);
    SlotStep(multiple, m);
    if multiple >= m {
      SlotLessMultiple(count - m, m, multiple - m);
    }
  }

  lemma {:induction false} SlotOfMultiple(m: nat, k: nat)
    requires m > 0
    ensures Slot(m * k, m) == 0
  {
    SlotStep(m * k, m);
    if k > 0 {
      assert m * k == m * (k - 1) + m;
      SlotOfMultiple(m, k - 1);
    }
  }

  // The hardware pointer is reset when it reaches boundary; the application pointer
  // only when it passes it.
  ghost predicate HwPointer(ptr: int, count: nat, boundary: nat)
    requires boundary > 0
  {
    ptr == Slot(count, boundary)
  }

  ghost predicate ApplPointer(ptr: int, count: nat, boundary: nat)
    requires boundary > 0
  {
    ptr == Slot(count, boundary) || (ptr == boundary && Slot(count, boundary) == 0)
  }

  lemma SignedRoundTrip(x: int)
    requires -INT_MAX - 1 <= x <= INT_MAX
    ensures AsInt(U32(x)) == x
  {}

  // On pointers in range the 32-bit computations are those of the integers.
  lemma AvailOnIntegers(hwPtr: int, applPtr: int, bufferSize: nat, boundary: nat)
    requires 0 < bufferSize < boundary && bufferSize + boundary <= INT_MAX
    requires 0 <= hwPtr < boundary && 0 <= applPtr <= boundary
    ensures CaptureAvail(hwPtr, applPtr, boundary)
      == if hwPtr < applPtr then hwPtr - applPtr + boundary else hwPtr - applPtr
    ensures PlaybackAvail(hwPtr, applPtr, bufferSize, boundary) ==
      var free := hwPtr + bufferSize - applPtr;
      if free < 0 then free + boundary else if free > boundary then free - boundary else free
  {
    var read, free := hwPtr - applPtr, hwPtr + bufferSize - applPtr;
    SignedRoundTrip(read);
    SignedRoundTrip(free);
    SignedRoundTrip(if read < 0 then read + boundary else read);
    SignedRoundTrip(if free < 0 then free + boundary else free - boundary);
  }

  lemma CaptureAvailExact(appl: nat, hw: nat, applPtr: int, hwPtr: int, bufferSize: nat, boundary: nat)
    requires 0 < bufferSize < boundary && bufferSize + boundary <= INT_MAX
    requires ApplPointer(applPtr, appl, boundary) && HwPointer(hwPtr, hw, boundary)
    requires 0 <= hw - appl <= bufferSize
    ensures CaptureAvail(hwPtr, applPtr, boundary) == hw - appl
  {
    AvailOnIntegers(hwPtr, applPtr, bufferSize, boundary);
    SlotMove(appl, hw - appl, boundary);
  }

  // Playback is exact unless the ring is completely full and the application
  // pointer has wrapped past the hardware pointer; then the strict comparison with
  // boundary leaves a whole boundary of free frames.
  lemma PlaybackAvailExactIff(appl: nat, hw: nat, applPtr: int, hwPtr: int, bufferSize: nat, boundary: nat)
    requires 0 < bufferSize < boundary && bufferSize + boundary <= INT_MAX
    requires ApplPointer(applPtr, appl, boundary) && HwPointer(hwPtr, hw, boundary)
    requires 0 <= appl - hw <= bufferSize
    ensures PlaybackAvail(hwPtr, applPtr, bufferSize, boundary) == bufferSize - (appl - hw)
            <==> (appl - hw < bufferSize || hwPtr <= applPtr)
    ensures !(appl - hw < bufferSize || hwPtr <= applPtr) ==>
      PlaybackAvail(hwPtr, applPtr, bufferSize, boundary) == boundary
  {
    AvailOnIntegers(hwPtr, applPtr, bufferSize, boundary);
    SlotMove(hw, appl - hw, boundary);
  }

  // The full ring of eight frames whose application pointer has just wrapped.
  lemma PlaybackAvailOverReports()
    ensures ApplPointer(2, 1026, 1024) && HwPointer(1018, 1018, 1024)
    ensures 1026 - 1018 == 8
    ensures PlaybackAvail(1018, 2, 8, 1024) == 1024
  {
    SlotStep(1026, 1024);
    SlotStep(2, 1024);
    SlotStep(1018, 1024);
  }

  lemma ForwardFollows(appl: nat, ptr: int, frames: nat, boundary: nat)
    requires 0 < boundary <= INT_MAX && frames < boundary
    requires ApplPointer(ptr, appl, boundary)
    ensures ApplPointer(Forward(ptr, frames, boundary), appl + frames, boundary)
  {
    SlotMove(appl, frames, boundary);
  }
}

module PcmRing {
  import opened RingArithmetic

  // One interleaved frame, all channels together.
  type Frame = int

  // The boundary loop of pcm_open.
  method Boundary(bufferSize: nat) returns (boundary: nat, ghost doublings: nat)
    requires 0 < bufferSize <= INT_MAX
    ensures boundary == bufferSize * Pow2(doublings)
    ensures boundary * 2 > INT_MAX - bufferSize
    ensures boundary <= INT_MAX
    ensures boundary <= INT_MAX - bufferSize <==> bufferSize <= INT_MAX / 2
    ensures bufferSize < boundary <==> 3 * bufferSize <= INT_MAX
  {
    boundary := bufferSize;
    doublings := 0;
    while U32(boundary * 2) <= U32(INT_MAX - bufferSize)
      invariant boundary == bufferSize * Pow2(doublings)
      invariant bufferSize <= boundary <= INT_MAX
      invariant doublings == 0 ==> boundary == bufferSize
      invariant doublings > 0 ==> boundary <= INT_MAX - bufferSize && 2 * bufferSize <= boundary
      decreases INT_MAX - boundary
    {
      assert bufferSize * Pow2(doublings + 1) == 2 * (bufferSize * Pow2(doublings));
      boundary := U32(boundary * 2);
      doublings := doublings + 1;
    }
  }

  // The caller's buffer after n frames of the stream are copied to at..at + n.
  function Fill(buf: seq<Frame>, at: nat, stream: seq<Frame>, from: nat, n: nat): (r: seq<Frame>)
    requires at + n <= |buf| && from + n <= |stream|
    ensures |r| == |buf|
  {
    if n == 0 then buf else Fill(buf, at, stream, from, n - 1)[at + n - 1 := stream[from + n - 1]]
  }

  // The ring after n of the caller's frames are written from slot `first` on,
  // wrapping at the end of the ring.
  function Put(ring: seq<Frame>, first: nat, buf: seq<Frame>, at: nat, n: nat): (r: seq<Frame>)
    requires first < |ring| && n <= |ring| && at + n <= |buf|
    ensures |r| == |ring|
  {
    if n == 0 then ring else Put(ring, first, buf, at, n - 1)[Wrapped(first + n - 1, |ring|) := buf[at + n - 1]]
  }

  function Wrapped(slot: nat, m: nat): nat
    requires slot < 2 * m
  {
    if slot < m then slot else slot - m
  }

  // The stream after n of the caller's frames are written.
  function Extend(stream: seq<Frame>, buf: seq<Frame>, at: nat, n: nat): (r: seq<Frame>)
    requires at + n <= |buf|
    ensures |r| == |stream| + n
  {
    if n == 0 then stream else Extend(stream, buf, at, n - 1) + [buf[at + n - 1]]
  }

  // `later` is the stream some frames on.
  ghost predicate Continues(stream: seq<Frame>, later: seq<Frame>)
    decreases |later|
  {
    stream == later || (|later| > |stream| && Continues(stream, later[..|later| - 1]))
  }

  lemma {:induction false} ContinuesIsPrefix(stream: seq<Frame>, later: seq<Frame>)
    ensures Continues(stream, later) <==> stream <= later
    decreases |later|
  {
    if |later| > |stream| {
      ContinuesIsPrefix(stream, later[..|later| - 1]);
    }
  }

  lemma ContinuesOn(stream: seq<Frame>, later: seq<Frame>, latest: seq<Frame>)
    requires Continues(stream, later) && Continues(later, latest)
    ensures Continues(stream, latest)
  {
    ContinuesIsPrefix(stream, later);
    ContinuesIsPrefix(later, latest);
    ContinuesIsPrefix(stream, latest);
  }

  // Frame by frame: what Fill and Put write and what they leave.
  lemma {:induction false} FillAt(buf: seq<Frame>, at: nat, stream: seq<Frame>, from: nat, n: nat, j: nat)
    requires at + n <= |buf| && from + n <= |stream| && j < |buf|
    ensures Fill(buf, at, stream, from, n)[j] == if at <= j < at + n then stream[from + j - at] else buf[j]
  {
    if n > 0 {
      FillAt(buf, at, stream, from, n - 1, j);
    }
  }

  lemma {:induction false} PutAt(ring: seq<Frame>, first: nat, buf: seq<Frame>, at: nat, n: nat, j: nat)
    requires first < |ring| && n <= |ring| && at + n <= |buf| && j < |ring|
    ensures Put(ring, first, buf, at, n)[j] ==
            if first <= j < first + n then buf[at + j - first]
            else if j + |ring| < first + n then buf[at + j + |ring| - first]
            else ring[j]
  {
    if n > 0 {
      PutAt(ring, first, buf, at, n - 1, j);
    }
  }

  // Two runs make one.
  lemma {:induction false} FillBoth(buf: seq<Frame>, at: nat, stream: seq<Frame>, later: seq<Frame>, from: nat,
      n: nat, more: nat)
    requires at + n + more <= |buf| && from + n <= |stream| && from + n + more <= |later|
    requires stream <= later
    ensures Fill(Fill(buf, at, stream, from, n), at + n, later, from + n, more) == Fill(buf, at, later, from, n + more)
    decreases n + more
  {
    if more > 0 {
      FillBoth(buf, at, stream, later, from, n, more - 1);
    } else if n > 0 {
      FillBoth(buf, at, stream, later, from, n - 1, 0);
    }
  }

  lemma {:induction false} PutBoth(ring: seq<Frame>, first: nat, buf: seq<Frame>, at: nat, n: nat, more: nat)
    requires first < |ring| && n + more <= |ring| && at + n + more <= |buf|
    ensures Put(Put(ring, first, buf, at, n), Wrapped(first + n, |ring|), buf, at + n, more)
      == Put(ring, first, buf, at, n + more)
    decreases more
  {
    if more > 0 {
      PutBoth(ring, first, buf, at, n, more - 1);
    }
  }

  lemma {:induction false} ExtendBoth(stream: seq<Frame>, buf: seq<Frame>, at: nat, n: nat, more: nat)
    requires at + n + more <= |buf|
    ensures Extend(Extend(stream, buf, at, n), buf, at + n, more) == Extend(stream, buf, at, n + more)
  {
    if more > 0 {
      ExtendBoth(stream, buf, at, n, more - 1);
    }
  }

  // From `from` on, the stream is in the ring, each frame in its slot.
  ghost predicate Holds(ring: seq<Frame>, stream: seq<Frame>, from: nat)
    requires |ring| > 0
    decreases |stream| - from
  {
    from >= |stream| || (ring[Slot(from, |ring|)] == stream[from] && Holds(ring, stream, from + 1))
  }

  lemma {:induction false} HoldsEach(ring: seq<Frame>, stream: seq<Frame>, from: nat)
    requires |ring| > 0
    ensures Holds(ring, stream, from) <==> forall k :: from <= k < |stream| ==> ring[Slot(k, |ring|)] == stream[k]
    decreases |stream| - from
  {
    if from < |stream| {
      HoldsEach(ring, stream, from + 1);
    }
  }

  // Writing a frame into the slot after the stream extends it by that frame.
  lemma HoldsNext(ring: seq<Frame>, stream: seq<Frame>, from: nat, frame: Frame)
    requires |ring| > 0 && from <= |stream| < from + |ring|
    requires Holds(ring, stream, from)
    ensures Holds(ring[Slot(|stream|, |ring|) := frame], stream + [frame], from)
  {
    HoldsEach(ring, stream, from);
    forall k | from <= k < |stream| ensures Slot(k, |ring|) != Slot(|stream|, |ring|) {
      SlotsDiffer(k, |stream|, |ring|);
    }
    HoldsEach(ring[Slot(|stream|, |ring|) := frame], stream + [frame], from);
  }

  lemma {:induction false} HoldsPut(ring: seq<Frame>, stream: seq<Frame>, from: nat, buf: seq<Frame>, at: nat, n: nat)
    requires |ring| > 0 && from <= |stream| && |stream| + n <= from + |ring| && at + n <= |buf|
    requires Holds(ring, stream, from)
    ensures Holds(Put(ring, Slot(|stream|, |ring|), buf, at, n), Extend(stream, buf, at, n), from)
  {
    if n > 0 {
      HoldsPut(ring, stream, from, buf, at, n - 1);
      SlotMove(|stream|, n - 1, |ring|);
      HoldsNext(Put(ring, Slot(|stream|, |ring|), buf, at, n - 1), Extend(stream, buf, at, n - 1), from,
          buf[at + n - 1]);
    }
  }

  // Frames of the stream that lie in the ring without a split.
  lemma HoldsRun(ring: seq<Frame>, stream: seq<Frame>, from: nat, n: nat)
    requires |ring| > 0 && Holds(ring, stream, from)
    requires from + n <= |stream| && Slot(from, |ring|) + n <= |ring|
    ensures ring[Slot(from, |ring|)..Slot(from, |ring|) + n] == stream[from..from + n]
  {
    var slot := Slot(from, |ring|);
    HoldsEach(ring, stream, from);
    var window, run := ring[slot..slot + n], stream[from..from + n];
    forall i | 0 <= i < n ensures window[i] == run[i] {
      SlotMove(from, i, |ring|);
      assert ring[Slot(from + i, |ring|)] == stream[from + i];
    }
  }

  lemma {:induction false} HoldsFrom(ring: seq<Frame>, stream: seq<Frame>, from: nat, later: nat)
    requires |ring| > 0 && from <= later && Holds(ring, stream, from)
    ensures Holds(ring, stream, later)
  {
    HoldsEach(ring, stream, from);
    HoldsEach(ring, stream, later);
  }

  // The effect of transferring n frames at..at + n of the caller's buffer.  A capture
  // fills them from the stream, which may have grown meanwhile; playback writes them
  // into the ring from slot `first` on and appends them to the stream.
  ghost predicate Transferred(capture: bool, at: nat, from: nat, first: nat, n: nat,
      buf: seq<Frame>, ring: seq<Frame>, stream: seq<Frame>, buf': seq<Frame>, ring': seq<Frame>, stream': seq<Frame>)
    requires at + n <= |buf| && first < |ring| && n <= |ring|
    requires capture ==> from + n <= |stream'|
  {
    if capture then
      Continues(stream, stream') && buf' == Fill(buf, at, stream', from, n)
    else
      buf' == buf && ring' == Put(ring, first, buf, at, n) && stream' == Extend(stream, buf, at, n)
  }

  // Two transfers in a row make one; the first may not pass the end of the ring unless
  // the second starts at its beginning.
  lemma TransferredOn(capture: bool, at: nat, from: nat, first: nat, n: nat, slot: nat, more: nat,
      buf0: seq<Frame>, ring0: seq<Frame>, stream0: seq<Frame>, buf1: seq<Frame>, ring1: seq<Frame>,
      stream1: seq<Frame>,
      buf2: seq<Frame>, ring2: seq<Frame>, stream2: seq<Frame>)
    requires at + n + more <= |buf0| == |buf1| && first < |ring0| == |ring1| && n + more <= |ring0|
    requires slot == Wrapped(first + n, |ring0|) && slot < |ring0|
    requires capture ==> from + n <= |stream1| && from + n + more <= |stream2|
    requires Transferred(capture, at, from, first, n, buf0, ring0, stream0, buf1, ring1, stream1)
    requires Transferred(capture, at + n, from + n, slot, more, buf1, ring1, stream1, buf2, ring2, stream2)
    ensures Transferred(capture, at, from, first, n + more, buf0, ring0, stream0, buf2, ring2, stream2)
  {
    if capture {
      ContinuesOn(stream0, stream1, stream2);
      ContinuesIsPrefix(stream1, stream2);
      FillBoth(buf0, at, stream1, stream2, from, n, more);
    } else {
      PutBoth(ring0, first, buf0, at, n, more);
      ExtendBoth(stream0, buf0, at, n, more);
    }
  }

  // The hardware may have added to the stream before and after a transfer.
  lemma TransferredAmid(at: nat, from: nat, first: nat, n: nat,
      buf0: seq<Frame>, ring0: seq<Frame>, stream0: seq<Frame>, ring1: seq<Frame>, stream1: seq<Frame>,
      buf2: seq<Frame>, ring2: seq<Frame>, stream2: seq<Frame>, ring3: seq<Frame>, stream3: seq<Frame>)
    requires at + n <= |buf0| && first < |ring0| == |ring1| && n <= |ring0|
    requires from + n <= |stream2|
    requires Continues(stream0, stream1) && Continues(stream2, stream3)
    requires Transferred(true, at, from, first, n, buf0, ring1, stream1, buf2, ring2, stream2)
    ensures from + n <= |stream3|
    ensures Transferred(true, at, from, first, n, buf0, ring0, stream0, buf2, ring3, stream3)
  {
    ContinuesOn(stream0, stream1, stream2);
    ContinuesOn(stream0, stream2, stream3);
    ContinuesIsPrefix(stream2, stream3);
    FillBoth(buf0, at, stream2, stream3, from, n, 0);
  }

  class Pcm {
    const capture: bool
    const bufferSize: nat
    const boundary: nat
    const ring: array<Frame>

    var applPtr: nat
    var hwPtr: nat
    var appl: nat                   // frames the application has passed over, never wrapped
    var hw: nat                     // frames the hardware has passed over, never wrapped
    ghost var stream: seq<Frame>    // every frame put into the ring since it was opened

    // `whole` is a whole number of turns of a ring of m slots.
    ghost predicate Turns(whole: nat, m: nat) {
      m > 0 && Slot(whole, m) == 0
    }

    ghost predicate Pointers()
      reads this
    {
      && ring.Length == bufferSize
      && 0 < bufferSize < boundary
      && Turns(boundary, bufferSize)
      && bufferSize + boundary <= INT_MAX
      && ApplPointer(applPtr, appl, boundary)
      && HwPointer(hwPtr, hw, boundary)
      && (if capture then appl <= hw <= appl + bufferSize else hw <= appl <= hw + bufferSize)
    }

    // The side that takes frames out of the ring.
    ghost function Taken(): nat
      reads this
    {
      if capture then appl else hw
    }

    ghost predicate Valid()
      reads this, ring
    {
      && Pointers()
      && (if capture then |stream| == hw else appl <= |stream| <= hw + bufferSize)
      && Holds(ring[..], stream, Taken())
    }

    // Nothing is copied but not committed.
    ghost predicate Settled()
      reads this
    {
      !capture ==> |stream| == appl
    }

    // The true number of frames the application may transfer.
    ghost function Available(): (n: nat)
      requires Pointers()
      reads this
    {
      if capture then hw - appl else bufferSize - (appl - hw)
    }

    // The condition under which the computed count equals the true one.
    ghost predicate CountExact()
      reads this
    {
      capture || appl - hw < bufferSize || hwPtr <= applPtr
    }

    constructor (capture: bool, bufferSize: nat)
      requires 0 < bufferSize && 3 * bufferSize <= INT_MAX
      ensures Valid() && Settled() && fresh(ring)
      ensures this.capture == capture && this.bufferSize == bufferSize
      ensures appl == 0 && hw == 0 && stream == []
    {
      var limit, k := Boundary(bufferSize);
      SlotOfMultiple(bufferSize, Pow2(k));
      this.capture := capture;
      this.bufferSize := bufferSize;
      boundary := limit;
      ring := new Frame[bufferSize];
      applPtr, hwPtr := 0, 0;
      appl, hw, stream := 0, 0, [];
    }

    // Both pointers name the ring slot of their count.
    lemma RingSlot(count: nat, ptr: nat)
      requires Pointers()
      requires ApplPointer(ptr, count, boundary)
      ensures Slot(count, bufferSize) == ptr % bufferSize
    {
      SlotOfSlot(count, bufferSize, boundary);
      SlotIsRemainder(ptr, bufferSize);
    }

    // One frame of hardware progress, where the ring has room or frames for it.
    method Sample(frame: Frame)
      requires Valid() && capture && hw < appl + bufferSize
      modifies this`hwPtr, this`hw, this`stream, ring
      ensures Valid()
      ensures hw == old(hw) + 1 && stream == old(stream) + [frame]
    {
      RingSlot(hw, hwPtr);
      SlotMove(hw, 1, boundary);
      ring[hwPtr % bufferSize] := frame;
      HoldsNext(old(ring[..]), stream, appl, frame);
      assert ring[..] == old(ring[..])[Slot(hw, bufferSize) := frame];
      stream := stream + [frame];
      hw := hw + 1;
      hwPtr := if hwPtr + 1 == boundary then 0 else hwPtr + 1;
    }

    method Play() returns (frame: Frame)
      requires Valid() && !capture && hw < appl
      modifies this`hwPtr, this`hw
      ensures Valid()
      ensures hw == old(hw) + 1 && frame == stream[old(hw)]
    {
      RingSlot(hw, hwPtr);
      SlotMove(hw, 1, boundary);
      frame := ring[hwPtr % bufferSize];
      hw := hw + 1;
      hwPtr := if hwPtr + 1 == boundary then 0 else hwPtr + 1;
    }

    // pcm_sync_ptr and everything the hardware did since the previous one: in
    // capture the frames it sampled, in playback as many frames played.
    method Sync(samples: seq<Frame>)
      requires Valid()
      modifies this`hwPtr, this`hw, this`stream, ring
      ensures Valid()
      ensures old(hw) <= hw && Continues(old(stream), stream)
      ensures !capture ==> stream == old(stream)
      ensures !capture ==> ring[..] == old(ring[..])
    {
      for i := 0 to |samples|
        invariant Valid()
        invariant old(hw) <= hw && Continues(old(stream), stream)
        invariant !capture ==> stream == old(stream)
        invariant !capture ==> ring[..] == old(ring[..])
      {
        if capture && hw < appl + bufferSize {
          ghost var before := stream;
          Sample(samples[i]);
          assert stream[..|stream| - 1] == before;
        } else if !capture && hw < appl {
          var _ := Play();
        }
      }
    }

    // pcm_mmap_avail after its hardware sync.
    method Avail() returns (avail: int)
      requires Valid()
      ensures avail == Available() <==> CountExact()
      ensures avail == if CountExact() then Available() else boundary
    {
      if capture {
        avail := CaptureAvail(hwPtr, applPtr, boundary);
        CaptureAvailExact(appl, hw, applPtr, hwPtr, bufferSize, boundary);
      } else {
        avail := PlaybackAvail(hwPtr, applPtr, bufferSize, boundary);
        PlaybackAvailExactIff(appl, hw, applPtr, hwPtr, bufferSize, boundary);
      }
    }

    method ApplOffset() returns (offset: nat)
      requires Valid()
      ensures offset == Slot(appl, bufferSize)
    {
      RingSlot(appl, applPtr);
      offset := applPtr % bufferSize;
    }

    // pcm_mmap_begin after its hardware sync: where and how much can be copied
    // without a split.
    method Begin(wanted: nat) returns (offset: nat, frames: nat)
      requires Valid()
      ensures offset == Slot(appl, bufferSize)
      ensures frames == Min(wanted, Min(if CountExact() then Available() else bufferSize, bufferSize - offset))
    {
      offset := ApplOffset();
      var signedAvail := Avail();
      var avail := U32(signedAvail);
      if avail > bufferSize {
        avail := bufferSize;
      }
      var continuous := bufferSize - offset;
      frames := wanted;
      if frames > avail {
        frames := avail;
      }
      if frames > continuous {
        frames := continuous;
      }
    }

    // pcm_areas_copy in its two directions.
    method CopyOut(offset: nat, buf: array<Frame>, at: nat, frames: nat)
      requires buf != ring && capture
      requires Valid() && offset == Slot(appl, bufferSize) && offset + frames <= bufferSize && frames <= Available()
      requires at + frames <= buf.Length
      modifies buf
      ensures Valid()
      ensures buf[..] == Fill(old(buf[..]), at, stream, appl, frames)
    {
      ghost var slots, before := ring[..], buf[..];
      HoldsRun(slots, stream, appl, frames);
      forall i | 0 <= i < frames {
        buf[at + i] := ring[offset + i];
      }
      forall j | 0 <= j < buf.Length ensures buf[j] == Fill(before, at, stream, appl, frames)[j] {
        FillAt(before, at, stream, appl, frames, j);
        if at <= j < at + frames {
          assert buf[at + (j - at)] == slots[offset..offset + frames][j - at];
        }
      }
    }

    method CopyIn(offset: nat, buf: array<Frame>, at: nat, frames: nat)
      requires buf != ring && !capture && Settled()
      requires Valid() && offset == Slot(appl, bufferSize) && offset + frames <= bufferSize && frames <= Available()
      requires at + frames <= buf.Length
      modifies ring, this`stream
      ensures Valid()
      ensures ring[..] == Put(old(ring[..]), offset, buf[..], at, frames)
      ensures stream == Extend(old(stream), buf[..], at, frames)
    {
      ghost var slots, source := ring[..], buf[..];
      forall i | 0 <= i < frames {
        ring[offset + i] := buf[at + i];
      }
      forall j | 0 <= j < bufferSize ensures ring[j] == Put(slots, offset, source, at, frames)[j] {
        PutAt(slots, offset, source, at, frames, j);
        if offset <= j < offset + frames {
          assert ring[offset + (j - offset)] == source[at + (j - offset)];
        }
      }
      assert ring[..] == Put(slots, offset, source, at, frames) && buf[..] == source;
      HoldsPut(slots, stream, hw, source, at, frames);
      stream := Extend(stream, source, at, frames);
    }

    method Copy(offset: nat, buf: array<Frame>, at: nat, frames: nat)
      requires buf != ring && Settled()
      requires Valid() && offset == Slot(appl, bufferSize) && offset + frames <= bufferSize && frames <= Available()
      requires at + frames <= buf.Length
      modifies ring, buf, this`stream
      ensures Valid()
      ensures if capture then stream == old(stream) else |stream| == appl + frames
      ensures Transferred(capture, at, appl, offset, frames, old(buf[..]), old(ring[..]), old(stream), buf[..],
          ring[..], stream)
    {
      if capture {
        CopyOut(offset, buf, at, frames);
      } else {
        CopyIn(offset, buf, at, frames);
      }
    }

    // pcm_mmap_commit: hardware progress while copying, the pointer, the sync.
    method Commit(frames: nat, before: seq<Frame>, after: seq<Frame>)
      requires Valid() && frames <= Available()
      requires !capture ==> |stream| == appl + frames
      modifies this, ring
      ensures Valid() && Settled()
      ensures appl == old(appl) + frames && old(Available()) - frames <= Available()
      ensures old(hw) <= hw && Continues(old(stream), stream)
      ensures !capture ==> stream == old(stream)
      ensures !capture ==> ring[..] == old(ring[..])
    {
      Sync(before);
      ghost var synced := stream;
      ForwardFollows(appl, applPtr, frames, boundary);
      HoldsFrom(ring[..], stream, Taken(), if capture then appl + frames else hw);
      applPtr := Forward(applPtr, frames, boundary);
      appl := appl + frames;
      Sync(after);
      ContinuesOn(old(stream), synced, stream);
    }

    // One pass of the loop of pcm_mmap_transfer_areas, the hardware moving between
    // its statements.
    method TransferRun(buf: array<Frame>, at: nat, size: nat, first: seq<Frame>, second: seq<Frame>, third: seq<Frame>)
      returns (frames: nat)
      requires Valid() && Settled() && buf != ring
      requires at + size <= buf.Length && 0 < size <= Available()
      modifies this, ring, buf
      ensures Valid() && Settled()
      ensures 0 < frames <= size && appl == old(appl) + frames && size - frames <= Available()
      ensures Slot(old(appl), bufferSize) + frames <= bufferSize
      ensures frames < size ==> Slot(old(appl), bufferSize) + frames == bufferSize && Slot(appl, bufferSize) == 0
      ensures Transferred(capture, at, old(appl), Slot(old(appl), bufferSize), frames, old(buf[..]), old(ring[..]),
          old(stream), buf[..], ring[..], stream)
    {
      Sync(first);
      var offset;
      offset, frames := Begin(size);
      SlotMove(appl, frames, bufferSize);
      ghost var ring1, stream1 := ring[..], stream;
      Copy(offset, buf, at, frames);
      ghost var buf2, ring2, stream2 := buf[..], ring[..], stream;
      Commit(frames, second, third);
      if capture {
        TransferredAmid(at, old(appl), offset, frames, old(buf[..]), old(ring[..]), old(stream), ring1, stream1,
            buf2, ring2, stream2, ring[..], stream);
      }
    }

    // The same pass, seen as part of a transfer that began at `start` with the given
    // contents and has moved `count` frames.
    method TransferOn(buf: array<Frame>, at: nat, size: nat, first: seq<Frame>, second: seq<Frame>, third: seq<Frame>,
        ghost start: nat, ghost from: nat, ghost count: nat, ghost slot: nat, ghost buf0: seq<Frame>,
        ghost ring0: seq<Frame>, ghost stream0: seq<Frame>)
      returns (frames: nat)
      requires Valid() && Settled() && buf != ring
      requires at + size <= buf.Length && 0 < size <= Available()
      requires at == start + count && appl == from + count && |buf0| == buf.Length && slot < |ring0| == bufferSize
      requires count + size <= bufferSize && Slot(appl, bufferSize) == Wrapped(slot + count, bufferSize)
      requires Transferred(capture, start, from, slot, count, buf0, ring0, stream0, buf[..], ring[..], stream)
      modifies this, ring, buf
      ensures Valid() && Settled()
      ensures 0 < frames <= size && appl == old(appl) + frames && size - frames <= Available()
      ensures Slot(old(appl), bufferSize) + frames <= bufferSize
      ensures frames < size ==> Slot(old(appl), bufferSize) + frames == bufferSize && Slot(appl, bufferSize) == 0
      ensures Transferred(capture, start, from, slot, count + frames, buf0, ring0, stream0, buf[..], ring[..], stream)
    {
      ghost var buf1, ring1, stream1, slot1 := buf[..], ring[..], stream, Slot(appl, bufferSize);
      frames := TransferRun(buf, at, size, first, second, third);
      TransferredOn(capture, start, from, slot, count, slot1, frames,
        buf0, ring0, stream0, buf1, ring1, stream1, buf[..], ring[..], stream);
    }

    // pcm_mmap_transfer_areas.  progress(n) is what the hardware does in the n-th
    // gap between two statements of the loop.
    method TransferAreas(buf: array<Frame>, start: nat, total: nat, progress: nat -> seq<Frame>)
      returns (count: nat, runs: nat)
      requires Valid() && Settled() && buf != ring
      requires start + total <= buf.Length && total <= Available()
      modifies this, ring, buf
      ensures Valid() && Settled()
      ensures count == total && appl == old(appl) + total
      ensures runs <= 2
      ensures Transferred(capture, start, old(appl), Slot(old(appl), bufferSize), total, old(buf[..]), old(ring[..]),
          old(stream), buf[..], ring[..], stream)
    {
      ghost var from, first, buf0, ring0, stream0 := appl, Slot(appl, bufferSize), buf[..], ring[..], stream;
      var size, offset := total, start;
      count, runs := 0, 0;
      while size > 0
        invariant Valid() && Settled() && count <= total && size == total - count && offset == start + count
        invariant size <= Available() && appl == from + count
        invariant Transferred(capture, start, from, first, count, buf0, ring0, stream0, buf[..], ring[..], stream)
        invariant runs == 0 ==> count == 0
        invariant runs == 1 && size > 0 ==> Slot(appl, bufferSize) == 0 && first + count == bufferSize
        invariant runs == 2 ==> size == 0
        invariant runs <= 2
        decreases size
      {
        var frames := TransferOn(buf, offset, size, progress(3 * runs), progress(3 * runs + 1), progress(3 * runs + 2),
          start, from, count, first, buf0, ring0, stream0);
        offset, count, size := offset + frames, count + frames, size - frames;
        runs := runs + 1;
      }
    }
  }
}
