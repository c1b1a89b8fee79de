/** One circuit trace: a clamped orthogonal random walk on the grid, as a
    specification over the random draws that drive it. */
module Traces {
  import opened Grid

  /** Every trace has at least this many segments ... */
  const MinSegments: int := 3
  /** ... and at most this many. */
  const MaxSegments: int := 7
  /** The longest move before clamping: six cells. */
  const MaxMove: int := 6 * CellSize

  /** The three draws of one loop iteration: step length, axis and sign. */
  datatype StepDraw = StepDraw(length: real, axis: real, sign: real)

  /** All draws one trace consumes. The loop bound is re-drawn before every
      iteration, so `bounds[j]` is the draw compared with `j`; `steps[j]` drives
      iteration `j`. At most MaxSegments + 1 bound draws and MaxSegments steps are used;
      the signal's coin, progress and speed draws follow the walk. */
  datatype TraceDraws = TraceDraws(
    startX: real, startY: real,
    bounds: seq<real>, steps: seq<StepDraw>,
    coin: real, progress: real, speed: real)

  predicate ValidStep(s: StepDraw) {
    IsDraw(s.length) && IsDraw(s.axis) && IsDraw(s.sign)
  }

  predicate ValidSteps(steps: seq<StepDraw>) {
    forall k :: 0 <= k < |steps| ==> ValidStep(steps[k])
  }

  predicate ValidBounds(bounds: seq<real>) {
    |bounds| > MaxSegments && forall k :: 0 <= k < |bounds| ==> IsDraw(bounds[k])
  }

  predicate ValidTraceDraws(d: TraceDraws) {
    IsDraw(d.startX) && IsDraw(d.startY) &&
    ValidBounds(d.bounds) &&
    |d.steps| >= MaxSegments && ValidSteps(d.steps) &&
    IsDraw(d.coin) && IsDraw(d.progress) && IsDraw(d.speed)
  }

  /** The loop bound drawn before an iteration: Math.floor(r * 5) + 3. */
  function SegmentBound(r: real): (b: int)
    requires IsDraw(r)
    ensures MinSegments <= b <= MaxSegments
  {
    (r * 5.0).Floor + 3
  }

  /** A move's length before its sign: (Math.floor(r * 5) + 2) * CELL_SIZE. */
  function StepLength(r: real): (len: int)
    requires IsDraw(r)
    ensures 2 * CellSize <= len <= MaxMove
    ensures len % CellSize == 0
  {
    ((r * 5.0).Floor + 2) * CellSize
  }

  /** The first point: one start draw per coordinate. */
  function StartPoint(d: TraceDraws): (p: Point)
    requires IsDraw(d.startX) && IsDraw(d.startY)
    ensures OnGrid(p)
  {
    Point(StartCoord(d.startX), StartCoord(d.startY))
  }

  /** Points that differ in at most one coordinate, and by at most MaxMove. */
  predicate Adjacent(a: Point, b: Point) {
    (a.x == b.x || a.y == b.y) && Abs(a.x - b.x) <= MaxMove && Abs(a.y - b.y) <= MaxMove
  }

  /** One iteration of the walk: move x (axis draw above 0.5) or y by plus or minus
      the step length (sign draw above 0.5 for plus), then clamp both coordinates. */
  function Step(p: Point, s: StepDraw): Point
    requires ValidStep(s)
  {
    var len := StepLength(s.length);
    var delta := if s.sign > 0.5 then len else -len;
    var x := if s.axis > 0.5 then p.x + delta else p.x;
    var y := if s.axis > 0.5 then p.y else p.y + delta;
    Point(Clamp(x), Clamp(y))
  }

  /** The number of loop iterations from iteration j on: the loop stops at the first
      j that is not below its freshly drawn bound. */
  function SegmentCountFrom(bounds: seq<real>, j: int): (n: int)
    requires ValidBounds(bounds)
    requires 0 <= j <= MaxSegments
    ensures j <= n && MinSegments <= n <= MaxSegments
    ensures n >= SegmentBound(bounds[n])
    decreases MaxSegments - j
  {
    if j < SegmentBound(bounds[j]) then SegmentCountFrom(bounds, j + 1) else j
  }

  /** A step from a grid point lands on the grid, one axis-parallel hop of at most
      MaxMove away; the axis not drawn keeps its (clamped) coordinate. */
  lemma StepShape(p: Point, s: StepDraw)
    requires ValidStep(s)
    ensures OnGrid(p) ==> OnGrid(Step(p, s)) && Adjacent(p, Step(p, s))
    ensures s.axis > 0.5 ==> Step(p, s).y == Clamp(p.y)
    ensures s.axis <= 0.5 ==> Step(p, s).x == Clamp(p.x)
  {
    var len := StepLength(s.length);
    var delta := if s.sign > 0.5 then len else -len;
    if OnGrid(p) {
      if s.axis > 0.5 {
        ClampMove(p.x, delta);
      } else {
        ClampMove(p.y, delta);
      }
    }
  }

  /** Moving a grid coordinate by whole cells, at most MaxMove, and clamping keeps it a
      grid coordinate at most MaxMove away. */
  lemma ClampMove(v: int, delta: int)
    requires -HalfGrid <= v <= HalfGrid && v % CellSize == 0
    requires Abs(delta) <= MaxMove && delta % CellSize == 0
    ensures Clamp(v + delta) % CellSize == 0 && Abs(v - Clamp(v + delta)) <= MaxMove
  {
    var s := v + delta;
    if s > HalfGrid {
      assert Clamp(s) == HalfGrid == 15 * 15;
    } else if s < -HalfGrid {
      assert Clamp(s) == -HalfGrid == 15 * -15;
    } else {
      assert Clamp(s) == s;
      var m, n := v / CellSize, delta / CellSize;
      assert s == CellSize * (m + n);
    }
  }

  /** The loop runs on while each iteration index is below its freshly drawn bound,
      and stops at the first that is not. */
  lemma {:induction false} SegmentCountFromFirstStop(bounds: seq<real>, j: int)
    requires ValidBounds(bounds)
    requires 0 <= j <= MaxSegments
    ensures forall k :: j <= k < SegmentCountFrom(bounds, j) ==> k < SegmentBound(bounds[k])
    decreases MaxSegments - j
  {
    if j < SegmentBound(bounds[j]) {
      SegmentCountFromFirstStop(bounds, j + 1);
    }
  }

  /** The number of segments of a trace. */
  function SegmentCount(bounds: seq<real>): int
    requires ValidBounds(bounds)
  {
    SegmentCountFrom(bounds, 0)
  }

  /** The points visited from p by the first n steps, in order. */
  function Walk(p: Point, steps: seq<StepDraw>, n: nat): (w: seq<Point>)
    requires n <= |steps| && ValidSteps(steps)
    ensures |w| == n + 1 && w[0] == p
  {
    if n == 0 then [p]
    else
      var prev := Walk(p, steps, n - 1);
      prev + [Step(prev[n - 1], steps[n - 1])]
  }

  /** A trace's points: the start point and one point per segment. */
  function TracePoints(d: TraceDraws): seq<Point>
    requires ValidTraceDraws(d)
  {
    Walk(StartPoint(d), d.steps, SegmentCount(d.bounds))
  }

  /** The shape every trace has: all points on the grid, consecutive points adjacent. */
  predicate WellFormed(points: seq<Point>) {
    (forall k :: 0 <= k < |points| ==> OnGrid(points[k])) &&
    (forall k :: 0 <= k < |points| - 1 ==> Adjacent(points[k], points[k + 1]))
  }

  /** Walking from a grid point never leaves the grid, and every move is one
      axis-parallel hop of at most MaxMove. */
  lemma {:induction false} WalkShape(p: Point, steps: seq<StepDraw>, n: nat)
    requires OnGrid(p) && n <= |steps| && ValidSteps(steps)
    ensures WellFormed(Walk(p, steps, n))
  {
    if n > 0 {
      WalkShape(p, steps, n - 1);
      var prev := Walk(p, steps, n - 1);
      StepShape(prev[n - 1], steps[n - 1]);
      assert Walk(p, steps, n) == prev + [Step(prev[n - 1], steps[n - 1])];
    }
  }

  /** Every trace has 4 to 8 points on the grid, each move adjacent. */
  lemma TraceShape(d: TraceDraws)
    requires ValidTraceDraws(d)
    ensures MinSegments + 1 <= |TracePoints(d)| <= MaxSegments + 1
    ensures |TracePoints(d)| == SegmentCount(d.bounds) + 1
    ensures TracePoints(d)[0] == StartPoint(d)
    ensures WellFormed(TracePoints(d))
  {
    WalkShape(StartPoint(d), d.steps, SegmentCount(d.bounds));
  }

  /** The first three iterations always run and an eighth never does, whatever is drawn. */
  lemma SegmentCountRange(bounds: seq<real>)
    requires ValidBounds(bounds)
    ensures MinSegments <= SegmentCount(bounds) <= MaxSegments
    ensures forall j :: 0 <= j < SegmentCount(bounds) ==> j < SegmentBound(bounds[j])
    ensures SegmentCount(bounds) >= SegmentBound(bounds[SegmentCount(bounds)])
    ensures forall j :: 0 <= j < MinSegments ==> j < SegmentBound(bounds[j])
  {
    SegmentCountFromFirstStop(bounds, 0);
  }
}
