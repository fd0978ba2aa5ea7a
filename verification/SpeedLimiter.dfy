/** The bandwidth limiter: a ring of the last 128 points of progress, and a pause after
    each step that keeps the transfer within its bandwidth. Times are in seconds. */
module SpeedLimiters {
  import opened RingBuffers

  datatype Point = Point(time: real, bytes: nat)

  const MAX_QUEUE: nat := 128

  /** Unsigned 64-bit arithmetic, and the mask with 127. */
  function Wrap64(x: int): nat {
    x % 0x1_0000_0000_0000_0000
  }

  function Mask(x: nat): (r: nat)
    ensures r < MAX_QUEUE
  {
    x % MAX_QUEUE
  }

  /** The slot that is `back` slots behind `tail`. */
  function Behind(tail: nat, back: nat): (i: nat)
    requires tail < MAX_QUEUE && back < MAX_QUEUE
    ensures i < MAX_QUEUE
  {
    if back <= tail then tail - back else tail + MAX_QUEUE - back
  }

  /** Unsigned subtraction and the mask find the slot, also when the difference is negative. */
  lemma {:induction false} WrapFindsSlot(tail: nat, back: nat)
    requires tail < MAX_QUEUE && back < MAX_QUEUE
    ensures Mask(Wrap64(tail - back)) == Behind(tail, back)
  {
    if back > tail {
      assert Wrap64(tail - back) == 0x1_0000_0000_0000_0000 + tail - back;
      assert 0x1_0000_0000_0000_0000 == 0x200_0000_0000_0000 * MAX_QUEUE;
    }
  }

  // ----- progress as a sequence of points --------------------------------------------

  /** The last two points are too close: the last one is to be replaced. */
  predicate Crowded(c: seq<Point>, gap: real) {
    |c| > 1 && c[|c| - 1].time - c[|c| - 2].time < gap
  }

  /** All points that count, when `p` is the newest. */
  function Extended(c: seq<Point>, p: Point, gap: real): seq<Point> {
    if Crowded(c, gap) then c[..|c| - 1] + [p] else c + [p]
  }

  /** The newest 128 of them. */
  function Newest(c: seq<Point>): seq<Point> {
    LastOf(c, MAX_QUEUE)
  }

  ghost predicate Ordered(c: seq<Point>) {
    forall i | 0 < i < |c| :: c[i - 1].time <= c[i].time && c[i - 1].bytes <= c[i].bytes
  }

  /** All neighbours but the last two are `gap` apart. */
  ghost predicate Spaced(c: seq<Point>, gap: real) {
    forall i | 0 < i < |c| - 1 :: gap <= c[i].time - c[i - 1].time
  }

  lemma {:induction false} ExtendedKeeps(c: seq<Point>, p: Point, gap: real)
    requires Ordered(c) && Spaced(c, gap)
    requires c != [] ==> c[|c| - 1].time <= p.time && c[|c| - 1].bytes <= p.bytes
    ensures Ordered(Extended(c, p, gap)) && Spaced(Extended(c, p, gap), gap)
  {
    var d := Extended(c, p, gap);
    forall i | 0 < i < |d| ensures d[i - 1].time <= d[i].time && d[i - 1].bytes <= d[i].bytes {
      if i == |d| - 1 && Crowded(c, gap) {
        assert d[i - 1] == c[|c| - 2];
      }
    }
  }

  /** The newest points only depend on the newest points before: a ring of 128 is enough. */
  lemma {:induction false} RingIsEnough(c: seq<Point>, p: Point, gap: real)
    ensures Newest(Extended(Newest(c), p, gap)) == Newest(Extended(c, p, gap))
  {
    if |c| > MAX_QUEUE {
      var d, k := Newest(c), |c| - MAX_QUEUE;
      assert d[MAX_QUEUE - 1] == c[|c| - 1] && d[MAX_QUEUE - 2] == c[|c| - 2];
      assert Crowded(d, gap) == Crowded(c, gap);
      assert Extended(d, p, gap) == Extended(c, p, gap)[k..];
    }
  }

  lemma {:induction false} LastIsNewest(c: seq<Point>)
    requires c != []
    ensures var d := Newest(c); d != [] && d[|d| - 1] == c[|c| - 1]
  {
  }

  lemma {:induction false} NewestKeeps(c: seq<Point>, gap: real)
    requires Ordered(c) && Spaced(c, gap)
    ensures Ordered(Newest(c)) && Spaced(Newest(c), gap)
  {
  }

  /** Where the oldest of the `size` points that end at `tail` is. */
  function Oldest(size: nat, tail: nat): (i: nat)
    requires size <= MAX_QUEUE && tail < MAX_QUEUE
    ensures i < MAX_QUEUE
  {
    if size == 0 then Mask(tail + 1) else Behind(tail, size - 1)
  }

  lemma {:induction false} OldestIs(size: nat, tail: nat, k: nat)
    requires k < size <= MAX_QUEUE && tail < MAX_QUEUE
    ensures Slot(MAX_QUEUE, Oldest(size, tail), k) == Behind(tail, size - 1 - k)
  {
  }

  /** The tail moves on, and with it the oldest point when the ring is full. */
  lemma {:induction false} TailMoves(size: nat, tail: nat)
    requires size <= MAX_QUEUE && tail < MAX_QUEUE
    ensures var t := Mask(tail + 1);
            if size == MAX_QUEUE then Oldest(size, t) == After(MAX_QUEUE, Oldest(size, tail)) else Oldest(size + 1, t) == Oldest(size, tail)
  {
  }

  lemma {:induction false} Replaced(q: seq<Point>, size: nat, tail: nat, p: Point)
    requires |q| == MAX_QUEUE && 0 < size <= MAX_QUEUE && tail < MAX_QUEUE
    ensures var f := Oldest(size, tail); InRing(q[tail := p], size, f) == InRing(q, size, f)[..size - 1] + [p]
  {
    OldestIs(size, tail, size - 1);
    Written(q, size, Oldest(size, tail), p);
  }

  lemma {:induction false} Appended(q: seq<Point>, size: nat, tail: nat, p: Point)
    requires |q| == MAX_QUEUE && size <= MAX_QUEUE && tail < MAX_QUEUE
    ensures var t, n := Mask(tail + 1), if size == MAX_QUEUE then size else size + 1;
            InRing(q[t := p], n, Oldest(n, t)) == Newest(InRing(q, size, Oldest(size, tail)) + [p])
  {
    hide LastOf, InRing, Oldest, Mask, After;
    var t, n := Mask(tail + 1), if size == MAX_QUEUE then size else size + 1;
    TailMoves(size, tail);
    GrowContents(q, size, Oldest(size, tail));
    OldestIs(n, t, n - 1);
    Written(q, n, Oldest(n, t), p);
    LastOfSnoc(InRing(q, size, Oldest(size, tail)), p, MAX_QUEUE);
  }

  /** `later` are the points after `p` came: it replaces the last one if that is less than `gap`
      behind the one before, and follows it otherwise. */
  ghost predicate Follows(c: seq<Point>, p: Point, gap: real, later: seq<Point>) {
    var n := |c|;
    if n > 1 && c[n - 1].time - c[n - 2].time < gap then later == c[..n - 1] + [p] else later == c + [p]
  }

  lemma {:induction false} ExtendedFollows(c: seq<Point>, p: Point, gap: real)
    ensures Follows(c, p, gap, Extended(c, p, gap))
  {
  }

  /** The pause after a step is what is missing for the bandwidth between the first and the last
      of the points, cut to nanoseconds, if anything is. */
  ghost predicate Pauses(c: seq<Point>, secondsPerByte: real, nap: (int, int)) {
    if |c| <= 1 then nap == (0, 0)
    else
      var due := (c[|c| - 1].bytes - c[0].bytes) as real * secondsPerByte - (c[|c| - 1].time - c[0].time);
      if due <= 0.0 then nap == (0, 0) else due - 0.000000001 < nap.0 as real + nap.1 as real / 1.0e9 <= due
  }

  /** The time by which the points are too early. */
  function Missing(c: seq<Point>, secondsPerByte: real): real
    requires |c| > 1
  {
    Cost(c[|c| - 1].bytes - c[0].bytes, secondsPerByte) - (c[|c| - 1].time - c[0].time)
  }

  lemma {:induction false} PausesAre(c: seq<Point>, secondsPerByte: real, nap: (int, int))
    requires |c| > 1 ==> nap == if Missing(c, secondsPerByte) <= 0.0 then (0, 0) else Nap(Missing(c, secondsPerByte))
    requires |c| <= 1 ==> nap == (0, 0)
    ensures Pauses(c, secondsPerByte, nap)
  {
  }

  lemma {:induction false} NewestAre(c: seq<Point>)
    ensures Newest(c) == if |c| <= 128 then c else c[|c| - 128..]
  {
  }

  // ----- the limiter --------------------------------------------------------------------

  /** What becomes of the points when `p` is recorded in the ring. */
  lemma {:induction false} Recorded(points: seq<Point>, p: Point, gap: real)
    requires Ordered(points) && Spaced(points, gap)
    requires points != [] ==> points[|points| - 1].time <= p.time && points[|points| - 1].bytes <= p.bytes
    ensures var c, e := Newest(points), Extended(points, p, gap);
            && Newest((if Crowded(c, gap) then c[..|c| - 1] else c) + [p]) == Newest(e)
            && Ordered(e) && Spaced(e, gap) && e != [] && e[|e| - 1] == p
  {
    ExtendedKeeps(points, p, gap);
    RingIsEnough(points, p, gap);
    hide Newest, Ordered, Spaced;
  }

  /** The time that `bytes` take. */
  function Cost(bytes: int, secondsPerByte: real): real {
    bytes as real * secondsPerByte
  }

  /** What nanosleep is asked for: whole seconds, and the rest cut to nanoseconds. */
  function Nap(time: real): (nap: (int, int))
    requires time > 0.0
    ensures 0 <= nap.0 && 0 <= nap.1 < 1_000_000_000
    ensures time - 0.000000001 < Slept(nap) <= time
  {
    var sec := time.Floor;
    (sec, (1.0e9 * (time - sec as real)).Floor)
  }

  function Slept(nap: (int, int)): real {
    nap.0 as real + nap.1 as real / 1.0e9
  }

  class SpeedLimiter {
    const enabled: bool
    const secondsPerByte: real
    const gap: real
    const queue: array<Point>
    var size: nat
    var tail: nat
    var total: nat
    /** All points that counted, and when the last call returned. */
    ghost var points: seq<Point>
    ghost var ready: real

    ghost predicate Shape()
      reads this
    {
      queue.Length == MAX_QUEUE && size <= MAX_QUEUE && tail < MAX_QUEUE
    }

    /** The points in the ring, oldest first. */
    ghost function Contents(): (c: seq<Point>)
      reads this, queue
      requires Shape()
      ensures |c| == size
    {
      InRing(queue[..], size, Oldest(size, tail))
    }

    ghost predicate Valid()
      reads this, queue
    {
      && Shape() && Contents() == Newest(points) && Ordered(points) && Spaced(points, gap)
      && (size > 0 ==> points[|points| - 1].time <= ready && points[|points| - 1].bytes == total)
      && (size == 0 <==> points == [])
    }

    /** Everything between the oldest point in the ring and the newest fits the bandwidth,
        but for a nanosecond, by the time that the last call returned. */
    ghost predicate WithinBandwidth()
      reads this, queue
      requires Valid()
    {
      size > 1 ==>
        var c := Contents();
        Cost(c[size - 1].bytes - c[0].bytes, secondsPerByte) < ready - c[0].time + 0.000000001
    }

    constructor (bandwidth: real, gap: real, now: real)
      requires gap >= 0.0
      ensures Valid() && points == [] && fresh(queue)
      ensures this.gap == gap && enabled == (bandwidth > 0.0)
      ensures enabled ==> secondsPerByte * (bandwidth * 1024.0 * 1024.0 / 8.0) == 1.0
      ensures ready == now
    {
      enabled := bandwidth > 0.0;
      secondsPerByte := if bandwidth > 0.0 then 1.0 / (bandwidth * 1024.0 * 1024.0 / 8.0) else 0.0;
      this.gap := gap;
      queue := new Point[MAX_QUEUE](_ => Point(0.0, 0));
      size, tail, total := 0, 0, 0;
      points, ready := [], now;
    }

    /** The ring's accessors. */
    function First(): (p: Point)
      reads this, queue
      requires Shape() && size > 0
      ensures p == Contents()[0]
    {
      WrapFindsSlot(tail, size - 1);
      OldestIs(size, tail, 0);
      queue[Mask(Wrap64(tail - size + 1))]
    }

    function Penult(): (p: Point)
      reads this, queue
      requires Shape() && size > 1
      ensures p == Contents()[size - 2]
    {
      WrapFindsSlot(tail, 1);
      OldestIs(size, tail, size - 2);
      queue[Mask(Wrap64(tail - 1))]
    }

    function Last(): (p: Point)
      reads this, queue
      requires Shape() && size > 0
      ensures p == Contents()[size - 1]
    {
      OldestIs(size, tail, size - 1);
      queue[tail]
    }

    /** Puts a point into the ring: in place of the last one, or after it and over the
        oldest one when the ring is full. */
    method Store(p: Point, replace: bool)
      requires Shape() && (replace ==> size > 0)
      modifies this`size, this`tail, queue
      ensures Shape() && size > 0
      ensures Contents() == Newest((if replace then old(Contents())[..old(size) - 1] else old(Contents())) + [p])
    {
      hide InRing, Slot, Oldest, Mask, After, LastOf;
      ghost var q, c, r := queue[..], Contents(), (if replace then Contents()[..size - 1] else Contents()) + [p];
      if replace {
        Replaced(q, size, tail, p);
        NewestAre(r);
      } else {
        Appended(q, size, tail, p);
        size := if MAX_QUEUE < size + 1 then MAX_QUEUE else size + 1;
        tail := Mask(tail + 1);
      }
      assert InRing(q[tail := p], size, Oldest(size, tail)) == Newest(r);
      queue[tail] := p;
      assert queue[..] == q[tail := p];
    }

    /** The first half of a step: the new point is recorded. */
    method Record(now: real)
      requires Shape() && Contents() == Newest(points) && Ordered(points) && Spaced(points, gap)
      requires points != [] ==> points[|points| - 1].time <= now && points[|points| - 1].bytes <= total
      requires size == 0 <==> points == []
      modifies this`size, this`tail, this`points, this`ready, queue
      ensures Valid() && size > 0 && ready == now && points == Extended(old(points), Point(now, total), gap)
      ensures Contents()[size - 1] == Point(now, total)
    {
      hide Newest, Ordered, Spaced;
      var p := Point(now, total);
      Recorded(points, p, gap);
      LastIsNewest(Extended(points, p, gap));
      ghost var c := Contents();
      var replace := size > 1 && Last().time - Penult().time < gap;
      Store(p, replace);
      points := Extended(points, p, gap);
      ready := now;
    }

    /** The second half: the pause that the points in the ring call for. */
    method Remaining() returns (nap: (int, int))
      requires Shape() && size > 0
      ensures 0 <= nap.0 && 0 <= nap.1 < 1_000_000_000 && Pauses(Contents(), secondsPerByte, nap)
      ensures var c := Contents();
              && (Slept(nap) > 0.0 ==> size > 1 && Slept(nap) <= Missing(c, secondsPerByte))
              && (size > 1 ==> Missing(c, secondsPerByte) - 0.000000001 < Slept(nap))
    {
      hide Pauses, Cost;
      nap := (0, 0);
      ghost var c := Contents();
      if size <= 1 {
        PausesAre(c, secondsPerByte, nap);
        return;
      }
      var timeToSleep := Cost(Last().bytes - First().bytes, secondsPerByte) - (Last().time - First().time);
      if timeToSleep <= 0.0 {
        PausesAre(c, secondsPerByte, nap);
        return;
      }
      nap := Nap(timeToSleep);
      PausesAre(c, secondsPerByte, nap);
    }

    /** And until when it lasts. */
    method Pause(now: real) returns (nap: (int, int))
      requires Valid() && size > 0 && ready == now && Contents()[size - 1].time == now
      modifies this`ready
      ensures Valid() && WithinBandwidth() && ready == now + Slept(nap) && Pauses(Contents(), secondsPerByte, nap)
      ensures 0 <= nap.0 && 0 <= nap.1 < 1_000_000_000
      ensures Slept(nap) > 0.0 ==>
                size > 1 && ready - Contents()[0].time <= Cost(Contents()[size - 1].bytes - Contents()[0].bytes, secondsPerByte)
    {
      hide Pauses, Newest, Ordered, Spaced, Cost, InRing, Slot, Oldest;
      nap := Remaining();
      ghost var c := Contents();
      ready := now + Slept(nap);
      assert Contents() == c && 0.0 <= Slept(nap);
    }

    method OnProgressUpdated(bytesRead: nat, now: real) returns (nap: (int, int))
      requires Valid() && ready <= now
      modifies this`size, this`tail, this`total, this`points, this`ready, queue
      ensures Valid() && (enabled ==> WithinBandwidth())
      ensures Ordered(Contents()) && Spaced(Contents(), gap)
      ensures Contents() == if |points| <= 128 then points else points[|points| - 128..]
      ensures ready == now + Slept(nap) && 0 <= nap.0 && 0 <= nap.1 < 1_000_000_000
      ensures Slept(nap) > 0.0 ==>
                size > 1 && ready - Contents()[0].time <= Cost(Contents()[size - 1].bytes - Contents()[0].bytes, secondsPerByte)
      ensures if enabled
              then total == old(total) + bytesRead && points == Extended(old(points), Point(now, total), gap)
                   && Follows(old(points), Point(now, total), gap, points) && Pauses(Contents(), secondsPerByte, nap)
              else nap == (0, 0) && points == old(points) && total == old(total)
    {
      hide Follows, Pauses, Newest, Ordered, Spaced, Cost, Extended, InRing, Slot, Oldest, LastOf;
      if enabled {
        total := total + bytesRead;
        ExtendedFollows(points, Point(now, total), gap);
        Record(now);
        nap := Pause(now);
      } else {
        nap := (0, 0);
        ready := now;
      }
      NewestKeeps(points, gap);
      NewestAre(points);
    }
  }
}
