/** A signal: a particle that runs along its trace. Every frame its progress advances
    and wraps with `% 1`, and its position is found by arc length along the trace. */
module SignalMotion {
  import opened Grid
  import opened Traces

  /** Math.trunc: the integer part, rounded toward zero. */
  function Trunc(v: real): int {
    if v >= 0.0 then v.Floor else -((-v).Floor)
  }

  /** JavaScript's `v % 1`: the remainder keeps the sign of v and differs from v by a
      whole number. */
  function Mod1(v: real): (r: real)
    ensures v >= 0.0 ==> 0.0 <= r < 1.0
    ensures v < 0.0 ==> -1.0 < r <= 0.0
    ensures (v - r).Floor as real == v - r
    ensures -1.0 < v < 1.0 ==> r == v
  {
    v - Trunc(v) as real
  }

  /** Progress after n frames, from p with speed s. */
  function ProgressAfter(p: real, s: real, n: nat): real {
    if n == 0 then p else Mod1(ProgressAfter(p, s, n - 1) + s)
  }

  /** For progress in [0, 1) and a speed below 1, one frame either adds the speed or
      adds it and wraps around once. */
  lemma WrapOnce(p: real, s: real)
    requires IsDraw(p) && IsDraw(s)
    ensures Mod1(p + s) == if p + s >= 1.0 then p + s - 1.0 else p + s
  {
    if p + s >= 1.0 {
      assert (p + s).Floor == 1;
    }
  }

  /** Progress stays in [0, 1) on every frame when the speed is not negative. */
  lemma {:induction false} ProgressStaysInRange(p: real, s: real, n: nat)
    requires IsDraw(p) && s >= 0.0
    ensures IsDraw(ProgressAfter(p, s, n))
  {
    if n > 0 {
      ProgressStaysInRange(p, s, n - 1);
    }
  }

  /** The number of segments: the loops run while i < points.length - 1. */
  function NumSegments(points: seq<Point>): nat {
    if |points| == 0 then 0 else |points| - 1
  }

  /** The length of the segment from a to b, measured along the axes. */
  function SegLen(a: Point, b: Point): nat {
    Abs(b.x - a.x) + Abs(b.y - a.y)
  }

  /** Segment i of a trace. */
  function SegmentLength(points: seq<Point>, i: nat): nat
    requires i < NumSegments(points)
  {
    SegLen(points[i], points[i + 1])
  }

  /** The arc length at the start of segment i: the lengths of the segments before it. */
  function Acc(points: seq<Point>, i: nat): nat
    requires i <= NumSegments(points)
  {
    if i == 0 then 0 else Acc(points, i - 1) + SegmentLength(points, i - 1)
  }

  /** The length of the whole trace. */
  function TotalLength(points: seq<Point>): nat {
    Acc(points, NumSegments(points))
  }

  /** The test of the lookup loop: distance d lies on segment i, ends included. */
  predicate Matches(points: seq<Point>, d: real, i: nat)
    requires i < NumSegments(points)
  {
    Acc(points, i) as real <= d <= (Acc(points, i) + SegmentLength(points, i)) as real
  }

  /** The outcome of the lookup: the first matching segment with its segmentProgress,
      a first match of length zero (where segmentProgress is 0 / 0, NaN), or no match. */
  datatype Lookup = OnSegment(index: nat, t: real) | ZeroLength(index: nat) | NoSegment

  /** The lookup from segment i on. */
  function LocateFrom(points: seq<Point>, d: real, i: nat): (r: Lookup)
    requires i <= NumSegments(points)
    ensures r.OnSegment? || r.ZeroLength? ==> i <= r.index < NumSegments(points) && Matches(points, d, r.index)
    decreases NumSegments(points) - i
  {
    if i == NumSegments(points) then NoSegment
    else if Matches(points, d, i) then
      var len := SegmentLength(points, i);
      if len == 0 then ZeroLength(i) else OnSegment(i, (d - Acc(points, i) as real) / len as real)
    else LocateFrom(points, d, i + 1)
  }

  /** Where distance d falls on the trace. */
  function Locate(points: seq<Point>, d: real): (r: Lookup)
    ensures r.OnSegment? || r.ZeroLength? ==> r.index < NumSegments(points) && Matches(points, d, r.index)
  {
    LocateFrom(points, d, 0)
  }

  /** The first loop of a frame: add up the segment lengths. */
  method ComputeTotalLength(points: seq<Point>) returns (total: nat)
    ensures total == TotalLength(points)
  {
    total := 0;
    var i := 0;
    while i < |points| - 1
      invariant 0 <= i <= NumSegments(points)
      invariant total == Acc(points, i)
    {
      total := total + SegLen(points[i], points[i + 1]);
      i := i + 1;
    }
  }

  /** The second loop of a frame: walk the segments, accumulating their lengths, and
      stop at the first one that holds distance d. */
  method FindSegment(points: seq<Point>, d: real) returns (r: Lookup)
    ensures r == Locate(points, d)
  {
    r := NoSegment;
    var accumulated := 0;
    var i := 0;
    while i < |points| - 1
      invariant 0 <= i <= NumSegments(points)
      invariant accumulated == Acc(points, i)
      invariant LocateFrom(points, d, i) == Locate(points, d)
    {
      var len := SegLen(points[i], points[i + 1]);
      if accumulated as real <= d <= (accumulated + len) as real {
        if len == 0 {
          r := ZeroLength(i);
        } else {
          r := OnSegment(i, (d - accumulated as real) / len as real);
        }
        return;
      }
      accumulated := accumulated + len;
      i := i + 1;
    }
  }

  /** currentDist: the distance along the trace that progress p stands for. */
  function Distance(p: real, total: nat): real {
    p * total as real
  }

  /** Both loops of a frame: the segment at fraction p of the trace's length. */
  method LocateProgress(points: seq<Point>, p: real) returns (r: Lookup)
    ensures r == Locate(points, Distance(p, TotalLength(points)))
  {
    var total := ComputeTotalLength(points);
    var d := Distance(p, total);
    r := FindSegment(points, d);
  }

  /** The particle's position: a point of the plane, or NaN once a NaN has gone into it. */
  datatype Position = At(x: real, y: real) | NaN

  /** Vector3.lerpVectors(a, b, t) in the plane z = 0. */
  function Lerp(a: Point, b: Point, t: real): Position {
    At(a.x as real + (b.x - a.x) as real * t, a.y as real + (b.y - a.y) as real * t)
  }

  /** The position after the lookup: the lerp on the matched segment; NaN for 0 / 0;
      the old position when no segment matched and nothing was written. */
  function Place(points: seq<Point>, r: Lookup, pos: Position): Position
    requires r.OnSegment? ==> r.index < NumSegments(points)
  {
    match r
    case OnSegment(i, t) => Lerp(points[i], points[i + 1], t)
    case ZeroLength(_) => NaN
    case NoSegment => pos
  }

  function RAbs(v: real): real {
    if v < 0.0 then -v else v
  }

  /** From segment i on, the lookup stops at the first segment that holds d, and finds
      none only when no segment from i on holds it. */
  lemma {:induction false} LocateFromFirst(points: seq<Point>, d: real, i: nat)
    requires i <= NumSegments(points)
    ensures match LocateFrom(points, d, i)
      case OnSegment(k, _) =>
        i <= k < NumSegments(points) && Matches(points, d, k) &&
        forall j :: i <= j < k ==> !Matches(points, d, j)
      case ZeroLength(k) =>
        i <= k < NumSegments(points) && Matches(points, d, k) &&
        forall j :: i <= j < k ==> !Matches(points, d, j)
      case NoSegment =>
        forall j :: i <= j < NumSegments(points) ==> !Matches(points, d, j)
    decreases NumSegments(points) - i
  {
    if i < NumSegments(points) && !Matches(points, d, i) {
      LocateFromFirst(points, d, i + 1);
    }
  }

  /** The lookup finds the smallest index whose segment holds d. */
  lemma LocateFirst(points: seq<Point>, d: real)
    ensures match Locate(points, d)
      case OnSegment(k, _) =>
        k < NumSegments(points) && Matches(points, d, k) &&
        forall j :: 0 <= j < k ==> !Matches(points, d, j)
      case ZeroLength(k) =>
        k < NumSegments(points) && Matches(points, d, k) &&
        forall j :: 0 <= j < k ==> !Matches(points, d, j)
      case NoSegment =>
        forall j :: 0 <= j < NumSegments(points) ==> !Matches(points, d, j)
  {
    LocateFromFirst(points, d, 0);
  }

  /** Past j missed segments the distance lies beyond their end. */
  lemma {:induction false} MissedSegments(points: seq<Point>, d: real, j: nat)
    requires 0.0 <= d && j <= NumSegments(points)
    requires forall k :: 0 <= k < j ==> !Matches(points, d, k)
    ensures j > 0 ==> d > Acc(points, j) as real
  {
    if j > 0 {
      MissedSegments(points, d, j - 1);
      assert !Matches(points, d, j - 1);
    }
  }

  /** For a trace with a segment, every distance from 0 to the total length hits one. */
  lemma LocateFinds(points: seq<Point>, d: real)
    requires NumSegments(points) >= 1 && 0.0 <= d <= TotalLength(points) as real
    ensures !Locate(points, d).NoSegment?
  {
    LocateFirst(points, d);
    if Locate(points, d).NoSegment? {
      MissedSegments(points, d, NumSegments(points));
    }
  }

  /** A first match of length zero can only be the first segment, at distance 0: a
      later one would start where the segment before it ends, which matches earlier. */
  lemma ZeroLengthOnlyAtStart(points: seq<Point>, d: real)
    requires Locate(points, d).ZeroLength?
    ensures Locate(points, d).index == 0 && d == 0.0
  {
    LocateFirst(points, d);
    LocateFromCase(points, d, 0);
    var k := Locate(points, d).index;
    assert d == Acc(points, k) as real;
    if k > 0 {
      assert Acc(points, k) == Acc(points, k - 1) + SegmentLength(points, k - 1);
      assert Matches(points, d, k - 1);
    }
  }

  /** segmentProgress lies in [0, 1]; it is 0 exactly at the segment's start and 1
      exactly at its end. */
  lemma SegmentProgressRange(points: seq<Point>, d: real)
    requires Locate(points, d).OnSegment?
    ensures var r := Locate(points, d);
      r.index < NumSegments(points) && SegmentLength(points, r.index) > 0 &&
      0.0 <= r.t <= 1.0 &&
      (r.t == 0.0 <==> d == Acc(points, r.index) as real) &&
      (r.t == 1.0 <==> d == Acc(points, r.index + 1) as real)
  {
    var r := Locate(points, d);
    LocateFromCase(points, d, 0);
    var acc := Acc(points, r.index);
    var len := SegmentLength(points, r.index);
    assert Acc(points, r.index + 1) == acc + len;
    Fraction(d - acc as real, len as real);
  }

  /** A distance into a segment over the segment's length. */
  lemma Fraction(num: real, len: real)
    requires 0.0 <= num <= len && len > 0.0
    ensures 0.0 <= num / len <= 1.0
    ensures num / len == 0.0 <==> num == 0.0
    ensures num / len == 1.0 <==> num == len
    ensures num / len * len == num
  {
    assert num / len * len == num;
  }

  /** The segmentProgress of a match is the distance into the segment over its length. */
  lemma {:induction false} LocateFromCase(points: seq<Point>, d: real, i: nat)
    requires i <= NumSegments(points)
    ensures var r := LocateFrom(points, d, i);
      r.OnSegment? ==> (SegmentLength(points, r.index) > 0 &&
        r.t == (d - Acc(points, r.index) as real) / SegmentLength(points, r.index) as real)
    ensures var r := LocateFrom(points, d, i);
      r.ZeroLength? ==> SegmentLength(points, r.index) == 0
    decreases NumSegments(points) - i
  {
    if i < NumSegments(points) && !Matches(points, d, i) {
      LocateFromCase(points, d, i + 1);
    }
  }

  /** At the boundary between segments i and i + 1 the earlier segment wins: the
      lookup stops at segment i or before. */
  lemma BoundaryEarlierWins(points: seq<Point>, i: nat)
    requires i + 1 < NumSegments(points)
    ensures var r := Locate(points, Acc(points, i + 1) as real);
      (r.OnSegment? || r.ZeroLength?) && r.index <= i
  {
    var d := Acc(points, i + 1) as real;
    assert Matches(points, d, i);
    LocateFirst(points, d);
  }

  /** When segment i has a length, its end is found on segment i itself, with
      segmentProgress 1, even where segment i + 1 starts. */
  lemma BoundaryAtEnd(points: seq<Point>, i: nat)
    requires i < NumSegments(points) && SegmentLength(points, i) > 0
    ensures Locate(points, Acc(points, i + 1) as real) == OnSegment(i, 1.0)
  {
    var d := Acc(points, i + 1) as real;
    assert Matches(points, d, i);
    NoEarlierMatch(points, d, i);
    LocateFirst(points, d);
    LocateFromCase(points, d, 0);
    var len := SegmentLength(points, i) as real;
    Fraction(d - Acc(points, i) as real, len);
  }

  /** No segment before a segment with a length holds that segment's end. */
  lemma NoEarlierMatch(points: seq<Point>, d: real, i: nat)
    requires i < NumSegments(points) && SegmentLength(points, i) > 0
    requires d == Acc(points, i + 1) as real
    ensures forall j :: 0 <= j < i ==> !Matches(points, d, j)
  {
    forall j | 0 <= j < i
      ensures !Matches(points, d, j)
    {
      AccMonotone(points, j + 1, i);
    }
  }

  /** The arc length at a segment's start never decreases along the trace. */
  lemma {:induction false} AccMonotone(points: seq<Point>, j: nat, k: nat)
    requires j <= k <= NumSegments(points)
    ensures Acc(points, j) <= Acc(points, k)
    decreases k - j
  {
    if j < k {
      AccMonotone(points, j, k - 1);
    }
  }

  /** The interpolated point lies on the matched segment, at arc length d from the
      trace's start: each coordinate lies between the segment's ends, and its distance
      along the axes from the segment's start is d minus the length of the segments
      before it. */
  lemma PositionOnSegment(points: seq<Point>, d: real)
    requires Locate(points, d).OnSegment?
    ensures var r := Locate(points, d);
      var a, b := points[r.index], points[r.index + 1];
      var pos := Lerp(a, b, r.t);
      pos.At? &&
      Between(a.x as real, pos.x, b.x as real) && Between(a.y as real, pos.y, b.y as real) &&
      RAbs(pos.x - a.x as real) + RAbs(pos.y - a.y as real) == d - Acc(points, r.index) as real &&
      RAbs(pos.x - a.x as real) <= RAbs((b.x - a.x) as real) &&
      RAbs(pos.y - a.y as real) <= RAbs((b.y - a.y) as real)
  {
    LocateFromCase(points, d, 0);
    var r := Locate(points, d);
    var a, b := points[r.index], points[r.index + 1];
    assert Acc(points, r.index + 1) == Acc(points, r.index) + SegLen(a, b);
    LerpAt(a, b, d - Acc(points, r.index) as real);
    SegmentProgressRange(points, d);
    LerpOnSegment(a, b, r.t);
  }

  /** p lies between u and v, in either order. */
  predicate Between(u: real, p: real, v: real) {
    u <= p <= v || v <= p <= u
  }

  /** lerpVectors with t in [0, 1] stays on the segment: each coordinate lies between
      the two ends' coordinates. */
  lemma LerpOnSegment(a: Point, b: Point, t: real)
    requires 0.0 <= t <= 1.0
    ensures Between(a.x as real, Lerp(a, b, t).x, b.x as real)
    ensures Between(a.y as real, Lerp(a, b, t).y, b.y as real)
  {
    LerpOffset(a, b, t);
    ScaledBetween((b.x - a.x) as real, t);
    ScaledBetween((b.y - a.y) as real, t);
  }

  /** lerpVectors moves each coordinate by t times the segment's extent on that axis. */
  lemma LerpOffset(a: Point, b: Point, t: real)
    ensures Lerp(a, b, t).x - a.x as real == (b.x - a.x) as real * t
    ensures Lerp(a, b, t).y - a.y as real == (b.y - a.y) as real * t
  {
  }

  /** A fraction t in [0, 1] of v lies between 0 and v. */
  lemma ScaledBetween(v: real, t: real)
    requires 0.0 <= t <= 1.0
    ensures Between(0.0, v * t, v)
  {
    if v >= 0.0 {
      assert v * t <= v * 1.0;
    } else {
      assert v * 1.0 <= v * t;
    }
  }

  /** Interpolating by segmentProgress = num / length puts the point num along the
      segment. */
  lemma LerpAt(a: Point, b: Point, num: real)
    requires SegLen(a, b) > 0 && 0.0 <= num <= SegLen(a, b) as real
    ensures var pos := Lerp(a, b, num / SegLen(a, b) as real);
      RAbs(pos.x - a.x as real) + RAbs(pos.y - a.y as real) == num &&
      RAbs(pos.x - a.x as real) <= RAbs((b.x - a.x) as real) &&
      RAbs(pos.y - a.y as real) <= RAbs((b.y - a.y) as real)
  {
    var len := SegLen(a, b) as real;
    var t := num / len;
    Fraction(num, len);
    assert 0.0 <= t <= 1.0 && t * len == num;
    LerpDistance(a, b, t);
  }

  /** lerpVectors with t in [0, 1] moves t of the way along each axis. */
  lemma LerpDistance(a: Point, b: Point, t: real)
    requires 0.0 <= t <= 1.0
    ensures var pos := Lerp(a, b, t);
      RAbs(pos.x - a.x as real) + RAbs(pos.y - a.y as real) == t * SegLen(a, b) as real &&
      RAbs(pos.x - a.x as real) <= RAbs((b.x - a.x) as real) &&
      RAbs(pos.y - a.y as real) <= RAbs((b.y - a.y) as real)
  {
    var pos := Lerp(a, b, t);
    var ox, oy := pos.x - a.x as real, pos.y - a.y as real;
    var dx, dy := (b.x - a.x) as real, (b.y - a.y) as real;
    LerpOffset(a, b, t);
    ScaledOffsets(ox, oy, dx, dy, t);
    SegLenReal(a, b);
    assert t * SegLen(a, b) as real == t * (RAbs(dx) + RAbs(dy));
  }

  /** The axis length of a segment, as a real. */
  lemma SegLenReal(a: Point, b: Point)
    ensures SegLen(a, b) as real == RAbs((b.x - a.x) as real) + RAbs((b.y - a.y) as real)
  {
  }

  /** Offsets that are a fraction t of (dx, dy) add up, along the axes, to t of its length. */
  lemma ScaledOffsets(ox: real, oy: real, dx: real, dy: real, t: real)
    requires 0.0 <= t <= 1.0 && ox == dx * t && oy == dy * t
    ensures RAbs(ox) + RAbs(oy) == t * (RAbs(dx) + RAbs(dy))
    ensures RAbs(ox) <= RAbs(dx) && RAbs(oy) <= RAbs(dy)
  {
    ScaledAbs(dx, t);
    ScaledAbs(dy, t);
    Distribute(RAbs(dx), RAbs(dy), t);
  }

  lemma Distribute(u: real, v: real, t: real)
    ensures t * (u + v) == u * t + v * t
  {
  }

  lemma ScaledAbs(v: real, t: real)
    requires 0.0 <= t <= 1.0
    ensures RAbs(v * t) == RAbs(v) * t <= RAbs(v)
  {
  }

  /** On an axis-parallel segment the length along the axes is the straight-line
      distance that the page measures with `Vector3.distanceTo`. */
  lemma SegLenIsDistance(a: Point, b: Point)
    requires a.x == b.x || a.y == b.y
    ensures SegLen(a, b) * SegLen(a, b) == (b.x - a.x) * (b.x - a.x) + (b.y - a.y) * (b.y - a.y)
  {
  }

  /** Every segment of a trace is axis-parallel. */
  lemma TraceSegmentsAxisParallel(points: seq<Point>, i: nat)
    requires WellFormed(points) && i < NumSegments(points)
    ensures points[i].x == points[i + 1].x || points[i].y == points[i + 1].y
  {
  }

  /** A signal on a trace with at least one segment always lands somewhere: on a
      segment, or, only at distance 0 on a first segment of length 0, at NaN. */
  lemma SignalAlwaysPlaced(points: seq<Point>, progress: real)
    requires NumSegments(points) >= 1 && IsDraw(progress)
    ensures var r := Locate(points, Distance(progress, TotalLength(points)));
      r.OnSegment? || (r.ZeroLength? && r.index == 0 && Distance(progress, TotalLength(points)) == 0.0)
  {
    var d := Distance(progress, TotalLength(points));
    ScaledAbs(TotalLength(points) as real, progress);
    LocateFinds(points, d);
    if Locate(points, d).ZeroLength? {
      ZeroLengthOnlyAtStart(points, d);
    }
  }

  /** Draws that make a trace pinned to the bottom-left corner: it starts there, and
      every move (y by -30) is clamped away, so its four points coincide. The coin
      draw is above 0.5, so this trace gets a signal. */
  function CornerDraws(): TraceDraws {
    var s := StepDraw(0.0, 0.0, 0.0);
    TraceDraws(0.0, 0.0, [0.0, 0.0, 0.0, 0.0, 0.0, 0.0, 0.0, 0.0], [s, s, s, s, s, s, s], 0.75, 0.0, 0.0)
  }

  /** On the corner trace the total length is 0, so every frame's lookup matches the
      zero-length first segment and the particle's position becomes NaN. */
  lemma CornerTraceGoesNaN(p: real, pos: Position)
    ensures ValidTraceDraws(CornerDraws())
    ensures TracePoints(CornerDraws()) == [Point(-225, -225), Point(-225, -225), Point(-225, -225), Point(-225, -225)]
    ensures TotalLength(TracePoints(CornerDraws())) == 0
    ensures Locate(TracePoints(CornerDraws()), Distance(p, 0)) == ZeroLength(0)
    ensures Place(TracePoints(CornerDraws()), ZeroLength(0), pos) == NaN
  {
    var d := CornerDraws();
    var c := Point(-225, -225);
    assert StartPoint(d) == c;
    assert SegmentCount(d.bounds) == 3;
    assert Step(c, d.steps[0]) == c;
    var points := TracePoints(d);
    assert points == Walk(c, d.steps, 3);
    assert Walk(c, d.steps, 1) == [c, c];
    assert Walk(c, d.steps, 2) == [c, c, c];
    assert points == [c, c, c, c];
    assert SegmentLength(points, 0) == 0;
  }

  /** A signal record and its particle's position. */
  class Signal {
    const points: seq<Point>
    const speed: real
    var progress: real
    var position: Position

    predicate Valid()
      reads this
    {
      IsDraw(progress) && speed >= 0.0
    }

    /** A new particle sits at the origin until its first frame. */
    constructor (points: seq<Point>, progress: real, speed: real)
      ensures this.points == points && this.progress == progress && this.speed == speed
      ensures position == At(0.0, 0.0)
    {
      this.points := points;
      this.progress := progress;
      this.speed := speed;
      position := At(0.0, 0.0);
    }

    /** One frame: advance and wrap the progress, then place the particle at that
        fraction of the trace's length. */
    method Tick()
      modifies this
      ensures progress == Mod1(old(progress) + speed)
      ensures position == Place(points, Locate(points, Distance(progress, TotalLength(points))), old(position))
    {
      var p := Mod1(progress + speed);
      var r := LocateProgress(points, p);
      progress := p;
      position := Place(points, r, position);
    }
  }
}
