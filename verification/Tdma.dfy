/** The TDMA uplink schedule (tdma_scheduler), in exact arithmetic: slots tile the epoch, the offset lookup
  * inverts them, and frames with bounded clock error never collide. */
module Tdma {
  import opened Common
  import opened Numbers

  /** A 16-byte payload and 14 bytes of framing. */
  const STATUS_FRAME_SIZE := 30

  datatype Scheduler = Scheduler(fleetSize: int, epoch: real)

  predicate Valid(s: Scheduler) { s.fleetSize > 0 && s.epoch > 0.0 }

  datatype Slot = Slot(drone: int, start: real, end: real) {
    predicate Contains(x: real) { start <= x < end }

    predicate Overlaps(other: Slot) { start < other.end && other.start < end }
  }

  function SlotWidth(s: Scheduler): (w: real)
    requires Valid(s)
    ensures w > 0.0
  {
    s.epoch / s.fleetSize as real
  }

  /** The i-th boundary: both ends of every slot are computed the same way. */
  function Boundary(s: Scheduler, i: int): real
    requires Valid(s)
  {
    i as real * s.epoch / s.fleetSize as real
  }

  /** None for an id outside the fleet. */
  function SlotFor(s: Scheduler, drone: int): Option<Slot>
    requires Valid(s)
  {
    if !(0 <= drone < s.fleetSize) then None
    else Some(Slot(drone, Boundary(s, drone), Boundary(s, drone + 1)))
  }

  /** None for an offset outside the epoch. */
  function DroneForOffset(s: Scheduler, x: real): Option<int>
    requires Valid(s)
  {
    if !(0.0 <= x < s.epoch) then None
    else
      var idx := Trunc(x / SlotWidth(s));
      Some(if idx <= s.fleetSize - 1 then idx else s.fleetSize - 1)
  }

  function TransmissionTime(capacity: int): real
    requires capacity > 0
  {
    (STATUS_FRAME_SIZE * 8) as real / capacity as real
  }

  function SlotUtilization(s: Scheduler, capacity: int): real
    requires Valid(s) && capacity > 0
  {
    TransmissionTime(capacity) / SlotWidth(s)
  }

  /** A frame is 240 bits. */
  lemma FrameBits(capacity: int)
    requires capacity > 0
    ensures TransmissionTime(capacity) * capacity as real == 240.0
  {
  }

  // ---------------------------------------------------------------- slots tile the epoch

  /** `i` widths from the origin. Hidden where it is used, so that reasoning about it is linear. */
  function Mark(i: int, w: real): real { Times(i as real, w) }

  lemma MarkNext(i: int, w: real)
    ensures Mark(i + 1, w) == Mark(i, w) + w
  {
  }

  lemma MarkOrder(i: int, j: int, w: real)
    requires w > 0.0 && i <= j
    ensures Mark(i, w) <= Mark(j, w)
  {
    MulMono(i as real, j as real, w);
  }

  lemma Rescale(x: real, e: real, n: real)
    requires n > 0.0
    ensures x * e / n == x * (e / n)
  {
    var q := e / n;
    assert q * n == e;
    assert x * e == (x * q) * n;
  }

  lemma BoundaryIsMark(s: Scheduler, i: int)
    requires Valid(s)
    ensures Boundary(s, i) == Mark(i, SlotWidth(s))
  {
    Rescale(i as real, s.epoch, s.fleetSize as real);
  }

  /** Slot `i` is the i-th stretch of one slot width, and the last one ends with the epoch. */
  lemma SlotBounds(s: Scheduler, i: int)
    requires Valid(s) && 0 <= i < s.fleetSize
    ensures SlotFor(s, i) == Some(Slot(i, Mark(i, SlotWidth(s)), Mark(i + 1, SlotWidth(s))))
    ensures 0.0 <= Mark(i, SlotWidth(s)) && Mark(i + 1, SlotWidth(s)) <= s.epoch
  {
    BoundaryIsMark(s, i);
    BoundaryIsMark(s, i + 1);
    var w := SlotWidth(s);
    LastMark(s);
    assert Mark(0, w) == 0.0;
    hide Mark, SlotWidth, Boundary;
    MarkOrder(0, i, w);
    MarkOrder(i + 1, s.fleetSize, w);
  }

  lemma LastMark(s: Scheduler)
    requires Valid(s)
    ensures Mark(s.fleetSize, SlotWidth(s)) == s.epoch
  {
  }

  /** The quotient decides which boundary an instant comes after. */
  lemma QuotientFloor(x: real, w: real, i: int)
    requires w > 0.0
    ensures Mark(i, w) <= x < Mark(i + 1, w) <==> (x / w).Floor == i
  {
    var q := x / w;
    assert Times(q, w) == x;
    ScaledOrder(i as real, q, w);
    ScaledOrder((i + 1) as real, q, w);
    hide Times;
  }

  lemma ScaledOrder(a: real, b: real, w: real)
    requires w > 0.0
    ensures Times(a, w) <= Times(b, w) <==> a <= b
  {
    if a <= b {
      MulMono(a, b, w);
    } else {
      ProductPositive(a - b, w, (a - b) * w);
    }
  }

  /** The lookup is the inverse of the slots: an offset belongs to a drone exactly when its slot contains
    * it. In exact arithmetic the lookup's final clamp never acts. */
  lemma OffsetInverse(s: Scheduler, x: real, i: int)
    requires Valid(s)
    ensures DroneForOffset(s, x) == Some(i) <==> SlotFor(s, i).Some? && SlotFor(s, i).value.Contains(x)
  {
    var w := SlotWidth(s);
    QuotientFloor(x, w, i);
    LastMark(s);
    if 0 <= i < s.fleetSize {
      SlotBounds(s, i);
    }
    hide SlotWidth, Boundary, Mark;
    if 0.0 <= x < s.epoch {
      OffsetIndex(x, w, s.fleetSize);
    }
  }

  lemma OffsetIndex(x: real, w: real, n: int)
    requires w > 0.0 && n > 0 && 0.0 <= x < Mark(n, w)
    ensures 0 <= Trunc(x / w) == (x / w).Floor < n
  {
    var q := x / w;
    var q0 := 0.0;
    assert Times(q, w) == x && Times(q0, w) == 0.0;
    ScaledOrder(q0, q, w);
    ScaledOrder(n as real, q, w);
    hide Times;
  }

  /** Some drone's slot contains the instant. */
  ghost predicate Owned(s: Scheduler, x: real)
    requires Valid(s)
  {
    exists i :: 0 <= i < s.fleetSize && SlotFor(s, i).value.Contains(x)
  }

  /** Slots are pairwise disjoint, equally long, and together cover exactly the epoch. */
  lemma SlotsTile(s: Scheduler)
    requires Valid(s)
    ensures forall i, j :: 0 <= i < s.fleetSize && 0 <= j < s.fleetSize && i != j ==>
              !SlotFor(s, i).value.Overlaps(SlotFor(s, j).value)
    ensures forall x :: Owned(s, x) <==> 0.0 <= x < s.epoch
    ensures forall i :: 0 <= i < s.fleetSize ==>
              SlotFor(s, i).value.drone == i && SlotFor(s, i).value.end - SlotFor(s, i).value.start == s.epoch / s.fleetSize as real
  {
    forall i | 0 <= i < s.fleetSize
      ensures SlotFor(s, i).value.drone == i && SlotFor(s, i).value.end - SlotFor(s, i).value.start == SlotWidth(s)
    {
      SlotBounds(s, i);
      MarkNext(i, SlotWidth(s));
      hide SlotFor, Mark, SlotWidth;
    }
    forall i, j | 0 <= i < s.fleetSize && 0 <= j < s.fleetSize && i != j
      ensures !SlotFor(s, i).value.Overlaps(SlotFor(s, j).value)
    {
      SlotBounds(s, i);
      SlotBounds(s, j);
      hide SlotFor, SlotWidth, Mark;
      MarkOrder(if i < j then i + 1 else j + 1, if i < j then j else i, SlotWidth(s));
    }
    forall x
      ensures Owned(s, x) <==> 0.0 <= x < s.epoch
    {
      OwnedExactly(s, x);
    }
  }

  lemma OwnedExactly(s: Scheduler, x: real)
    requires Valid(s)
    ensures Owned(s, x) <==> 0.0 <= x < s.epoch
  {
    hide Boundary, SlotWidth, Mark;
    if 0.0 <= x < s.epoch {
      var i := DroneForOffset(s, x).value;
      OffsetInverse(s, x, i);
      SlotKnown(s, i);
      assert SlotFor(s, i).value.Contains(x);
    }
    if i :| 0 <= i < s.fleetSize && SlotFor(s, i).value.Contains(x) {
      SlotBounds(s, i);
    }
  }

  lemma SlotKnown(s: Scheduler, i: int)
    requires Valid(s)
    ensures SlotFor(s, i).Some? <==> 0 <= i < s.fleetSize
  {
  }

  // ---------------------------------------------------------------- frames never collide

  /** When drone `i` starts its frame in epoch `e`: centred in its slot, off by its clock error. */
  function FrameStart(s: Scheduler, tx: real, e: int, i: int, err: real): real
    requires Valid(s) && 0 <= i < s.fleetSize
  {
    e as real * s.epoch + SlotFor(s, i).value.start + (SlotWidth(s) - tx) / 2.0 + err
  }

  predicate FramesOverlap(start1: real, start2: real, tx: real) { start1 < start2 + tx && start2 < start1 + tx }

  /** Counting slots through all epochs, a frame starts a whole number of widths after the first one. */
  lemma FrameStartLinear(s: Scheduler, tx: real, e: int, i: int, err: real)
    requires Valid(s) && 0 <= i < s.fleetSize
    ensures FrameStart(s, tx, e, i, err) ==
            Mark(e * s.fleetSize + i, SlotWidth(s)) + (SlotWidth(s) - tx) / 2.0 + err
  {
    SlotBounds(s, i);
    LastMark(s);
    EpochShift(e, s.fleetSize, i, SlotWidth(s));
    hide SlotFor, SlotWidth;
  }

  lemma EpochShift(e: int, n: int, i: int, w: real)
    ensures e as real * Mark(n, w) + Mark(i, w) == Mark(e * n + i, w)
  {
    var er, nr, ir := e as real, n as real, i as real;
    assert (e * n + i) as real == er * nr + ir;
    assert er * (nr * w) + ir * w == (er * nr + ir) * w;
  }

  /** Distinct (epoch, drone) pairs are distinct slots on the whole time line. */
  lemma DistinctSlots(e: int, i: int, f: int, j: int, n: int)
    requires 0 <= i < n && 0 <= j < n && (e != f || i != j)
    ensures e * n + i != f * n + j
  {
    if e != f {
      var d := if e < f then f - e else e - f;
      AtLeastOnce(d, n);
      assert (f - e) * n == f * n - e * n;
      assert (e - f) * n == e * n - f * n;
    }
  }

  lemma AtLeastOnce(d: int, n: int)
    requires d >= 1 && n >= 0
    ensures d * n >= n
  {
  }

  ghost predicate NeverCollide(s: Scheduler, tx: real, bound: real)
    requires Valid(s)
  {
    forall e: int, i: int, err1: real, f: int, j: int, err2: real ::
      0 <= i < s.fleetSize && 0 <= j < s.fleetSize && (e != f || i != j)
      && -bound <= err1 <= bound && -bound <= err2 <= bound ==>
        !FramesOverlap(FrameStart(s, tx, e, i, err1), FrameStart(s, tx, f, j, err2), tx)
  }

  lemma NoCollision(s: Scheduler, tx: real, bound: real, e: int, i: int, err1: real, f: int, j: int, err2: real)
    requires Valid(s) && bound <= (SlotWidth(s) - tx) / 2.0
    requires 0 <= i < s.fleetSize && 0 <= j < s.fleetSize && (e != f || i != j)
    requires -bound <= err1 <= bound && -bound <= err2 <= bound
    ensures !FramesOverlap(FrameStart(s, tx, e, i, err1), FrameStart(s, tx, f, j, err2), tx)
  {
    FrameStartLinear(s, tx, e, i, err1);
    FrameStartLinear(s, tx, f, j, err2);
    DistinctSlots(e, i, f, j, s.fleetSize);
    var m, k := e * s.fleetSize + i, f * s.fleetSize + j;
    hide FrameStart, SlotWidth, Mark;
    MarkNext(m, SlotWidth(s));
    MarkNext(k, SlotWidth(s));
    MarkOrder(if m < k then m + 1 else k + 1, if m < k then k else m, SlotWidth(s));
  }

  /** Frames never collide, in any epoch and across the wrap from one epoch to the next, exactly when every
    * clock is within half of what the slot leaves beside the frame. */
  lemma CollisionFreeExactly(s: Scheduler, tx: real, bound: real)
    requires Valid(s) && tx > 0.0 && bound >= 0.0
    ensures NeverCollide(s, tx, bound) <==> bound <= (SlotWidth(s) - tx) / 2.0
  {
    var w := SlotWidth(s);
    if bound <= (w - tx) / 2.0 {
      forall e: int, i: int, err1: real, f: int, j: int, err2: real |
        0 <= i < s.fleetSize && 0 <= j < s.fleetSize && (e != f || i != j)
        && -bound <= err1 <= bound && -bound <= err2 <= bound
        ensures !FramesOverlap(FrameStart(s, tx, e, i, err1), FrameStart(s, tx, f, j, err2), tx)
      {
        NoCollision(s, tx, bound, e, i, err1, f, j, err2);
      }
    } else {
      var err := Min(bound, w / 2.0);
      var n := s.fleetSize;
      FrameStartLinear(s, tx, 0, n - 1, err);
      FrameStartLinear(s, tx, 1, 0, -err);
      MarkNext(n - 1, w);
      hide FrameStart, SlotWidth, Mark;
      assert FramesOverlap(FrameStart(s, tx, 0, n - 1, err), FrameStart(s, tx, 1, 0, -err), tx);
    }
  }

  /** With perfect clocks the schedule is collision-free exactly when a frame fits its slot. */
  lemma UtilizationDecides(s: Scheduler, capacity: int)
    requires Valid(s) && capacity > 0
    ensures NeverCollide(s, TransmissionTime(capacity), 0.0) <==> SlotUtilization(s, capacity) <= 1.0
  {
    var w, tx := SlotWidth(s), TransmissionTime(capacity);
    assert tx > 0.0;
    Fits(tx, w);
    hide NeverCollide, SlotWidth, TransmissionTime;
    CollisionFreeExactly(s, tx, 0.0);
  }

  lemma Fits(x: real, w: real)
    requires w > 0.0
    ensures x / w <= 1.0 <==> x <= w
  {
    var q, one := x / w, 1.0;
    assert Times(q, w) == x && Times(one, w) == w;
    ScaledOrder(q, one, w);
    hide Times;
  }
}
