/** Generation of the circuit layer: the nested loops that walk the traces, collect the
    string-keyed node set and pick the traces that carry a signal, and the loop that
    makes one node marker per key. */
module Circuit {
  import opened Grid
  import opened Traces
  import opened NodeKeys

  /** The number of traces. */
  const TraceCount: int := 50

  /** What a new signal record holds: its trace's points, initial progress and speed. */
  datatype SignalSeed = SignalSeed(points: seq<Point>, progress: real, speed: real)

  /** A signal's speed: Math.random() * 0.004 + 0.002. */
  function SignalSpeed(r: real): (s: real)
    ensures IsDraw(r) ==> 0.002 <= s < 0.006
  {
    r * 0.004 + 0.002
  }

  predicate ValidDraws(draws: seq<TraceDraws>) {
    forall i :: 0 <= i < |draws| ==> ValidTraceDraws(draws[i])
  }

  /** The points of the first n traces. */
  function TracesOf(draws: seq<TraceDraws>, n: nat): (traces: seq<seq<Point>>)
    requires n <= |draws| && ValidDraws(draws)
    ensures |traces| == n
  {
    if n == 0 then [] else TracesOf(draws, n - 1) + [TracePoints(draws[n - 1])]
  }

  /** Trace k of the generated circuit is the trace walked from draws[k]. */
  lemma {:induction false} TracesOfAt(draws: seq<TraceDraws>, n: nat, k: nat)
    requires n <= |draws| && ValidDraws(draws) && k < n
    ensures TracesOf(draws, n)[k] == TracePoints(draws[k])
  {
    if k < n - 1 {
      TracesOfAt(draws, n - 1, k);
    }
  }

  /** Every generated trace has 4 to 8 points on the grid, each move one axis-parallel
      hop, because trace k is the trace of draws[k]. */
  lemma TracesShape(draws: seq<TraceDraws>, n: nat, traces: seq<seq<Point>>)
    requires n <= |draws| && ValidDraws(draws) && traces == TracesOf(draws, n)
    ensures forall k :: 0 <= k < |traces| ==>
      MinSegments + 1 <= |traces[k]| <= MaxSegments + 1 && WellFormed(traces[k])
  {
    forall k | 0 <= k < |traces|
      ensures MinSegments + 1 <= |traces[k]| <= MaxSegments + 1 && WellFormed(traces[k])
    {
      TracesOfAt(draws, n, k);
      TraceShape(draws[k]);
    }
  }

  /** The signal a trace gets: one when the coin draw exceeds 0.5 and the trace has a segment. */
  function SeedOf(d: TraceDraws, points: seq<Point>): seq<SignalSeed>
  {
    if d.coin > 0.5 && |points| > 1 then [SignalSeed(points, d.progress, SignalSpeed(d.speed))] else []
  }

  /** The signals of the traces, in trace order; trace k was made from draws[k]. */
  function Seeds(draws: seq<TraceDraws>, traces: seq<seq<Point>>): seq<SignalSeed>
    requires |traces| <= |draws|
  {
    if traces == [] then []
    else Seeds(draws, traces[..|traces| - 1]) + SeedOf(draws[|traces| - 1], traces[|traces| - 1])
  }

  /** The keys of a sequence of points, point by point. */
  function KeysOf(points: seq<Point>): set<string> {
    ImageOf(points, Encode)
  }

  /** The keys all traces add to the node set, trace by trace. */
  function CircuitKeys(traces: seq<seq<Point>>): set<string> {
    if traces == [] then {} else CircuitKeys(traces[..|traces| - 1]) + KeysOf(traces[|traces| - 1])
  }

  /** A coordinate some trace visits. */
  predicate Visited(traces: seq<seq<Point>>, p: Point) {
    exists i :: 0 <= i < |traces| && p in traces[i]
  }

  /** One trace: the start point and then one point per iteration of a loop whose
      bound is re-drawn on every test; every point's key goes into the node set. */
  method WalkTrace(d: TraceDraws, keys: set<string>) returns (points: seq<Point>, keys': set<string>)
    requires ValidTraceDraws(d)
    ensures points == TracePoints(d)
    ensures keys' == keys + KeysOf(points)
  {
    var x := StartCoord(d.startX);
    var y := StartCoord(d.startY);
    points := [Point(x, y)];
    keys' := keys + {Encode(Point(x, y))};
    assert KeysOf(points) == ImageOf([], Encode) + {Encode(Point(x, y))};
    var j := 0;
    while j < SegmentBound(d.bounds[j])
      invariant 0 <= j <= SegmentCount(d.bounds)
      invariant SegmentCountFrom(d.bounds, j) == SegmentCount(d.bounds)
      invariant points == Walk(StartPoint(d), d.steps, j)
      invariant points[|points| - 1] == Point(x, y)
      invariant keys' == keys + KeysOf(points)
      decreases MaxSegments - j
    {
      x, y := Move(x, y, d.steps[j]);
      assert (points + [Point(x, y)])[..|points|] == points;
      points := points + [Point(x, y)];
      keys' := keys' + {Encode(Point(x, y))};
      j := j + 1;
    }
  }

  /** The body of the inner loop: move along the drawn axis, then clamp both coordinates. */
  method Move(x: int, y: int, s: StepDraw) returns (x': int, y': int)
    requires ValidStep(s)
    ensures Point(x', y') == Step(Point(x, y), s)
  {
    var length := StepLength(s.length);
    x', y' := x, y;
    if s.axis > 0.5 {
      x' := x' + if s.sign > 0.5 then length else -length;
    } else {
      y' := y' + if s.sign > 0.5 then length else -length;
    }
    x' := Clamp(x');
    y' := Clamp(y');
  }

  /** One iteration of the outer loop: walk one trace, then maybe give it a signal. */
  method AddTrace(d: TraceDraws, keys: set<string>, seeds: seq<SignalSeed>)
      returns (points: seq<Point>, keys': set<string>, seeds': seq<SignalSeed>)
    requires ValidTraceDraws(d)
    ensures points == TracePoints(d)
    ensures keys' == keys + KeysOf(points)
    ensures seeds' == seeds + SeedOf(d, points)
  {
    points, keys' := WalkTrace(d, keys);
    seeds' := seeds;
    if d.coin > 0.5 && |points| > 1 {
      seeds' := seeds' + [SignalSeed(points, d.progress, SignalSpeed(d.speed))];
    }
  }

  /** The whole circuit layer: TraceCount traces, the set of keys of every visited point,
      and one signal for each trace whose coin came up. */
  method GenerateCircuit(draws: seq<TraceDraws>)
      returns (traces: seq<seq<Point>>, keys: set<string>, seeds: seq<SignalSeed>)
    requires |draws| == TraceCount && ValidDraws(draws)
    ensures traces == TracesOf(draws, TraceCount)
    ensures keys == CircuitKeys(traces)
    ensures seeds == Seeds(draws, traces)
  {
    traces, keys, seeds := [], {}, [];
    var i := 0;
    while i < TraceCount
      invariant 0 <= i <= TraceCount
      invariant traces == TracesOf(draws, i)
      invariant keys == CircuitKeys(traces)
      invariant seeds == Seeds(draws, traces)
    {
      var points;
      points, keys, seeds := AddTrace(draws[i], keys, seeds);
      var traces' := traces + [points];
      assert traces'[..i] == traces;
      traces := traces';
      i := i + 1;
    }
  }

  /** The points a set of keys stands for: `forEach` over the keys, with `place` as the
      callback that turns one key into its marker's point. `key` is the encoding the
      keys were made with, which `place` inverts. */
  method ForEachKey<K>(keys: set<K>, place: K --> Point, key: Point -> K) returns (markers: seq<Point>)
    requires forall k :: k in keys ==> place.requires(k) && key(place(k)) == k
    ensures |markers| == |keys|
    ensures ImageOf(markers, key) == keys
    ensures forall i, j :: 0 <= i < j < |markers| ==> markers[i] != markers[j]
  {
    markers := [];
    var remaining := keys;
    while remaining != {}
      invariant remaining <= keys
      invariant |markers| + |remaining| == |keys|
      invariant ImageOf(markers, key) == keys - remaining
      invariant forall i, j :: 0 <= i < j < |markers| ==> markers[i] != markers[j]
      decreases |remaining|
    {
      var k :| k in remaining;
      var p := place(k);
      assert p !in markers by {
        ImageOfMember(markers, key, p);
      }
      assert (markers + [p])[..|markers|] == markers;
      markers := markers + [p];
      remaining := remaining - {k};
    }
  }

  /** nodePositions.forEach: one marker per key, at the point the key decodes to, and
      no two markers alike. */
  method PlaceNodes(keys: set<string>) returns (markers: seq<Point>)
    requires forall k :: k in keys ==> Canonical(k)
    ensures |markers| == |keys|
    ensures KeysOf(markers) == keys
    ensures forall i, j :: 0 <= i < j < |markers| ==> markers[i] != markers[j]
  {
    markers := ForEachKey(keys, k requires Canonical(k) => Decode(k).value, Encode);
  }

  /** The image of a sequence of points under an encoding, point by point. */
  function ImageOf<K>(points: seq<Point>, key: Point -> K): set<K> {
    if points == [] then {} else ImageOf(points[..|points| - 1], key) + {key(points[|points| - 1])}
  }

  lemma {:induction false} ImageOfMember<K>(points: seq<Point>, key: Point -> K, p: Point)
    ensures p in points ==> key(p) in ImageOf(points, key)
  {
    if points != [] {
      var init, last := points[..|points| - 1], points[|points| - 1];
      ImageOfMember(init, key, p);
      assert points == init + [last];
    }
  }

  /** A point's key is among the keys of a sequence exactly when the point is in it. */
  lemma {:induction false} KeysOfMember(points: seq<Point>, p: Point)
    ensures Encode(p) in KeysOf(points) <==> p in points
  {
    if points != [] {
      var init, last := points[..|points| - 1], points[|points| - 1];
      KeysOfMember(init, p);
      EncodeInjective(p, last);
      assert points == init + [last];
    }
  }

  /** Every key of a sequence of points is canonical. */
  lemma {:induction false} KeysOfCanonical(points: seq<Point>)
    ensures forall k :: k in KeysOf(points) ==> Canonical(k)
  {
    if points != [] {
      KeysOfCanonical(points[..|points| - 1]);
      EncodeCanonical(points[|points| - 1]);
    }
  }

  /** A point's key is in the node set exactly when some trace visits the point. */
  lemma {:induction false} CircuitKeysMember(traces: seq<seq<Point>>, p: Point)
    ensures Encode(p) in CircuitKeys(traces) <==> Visited(traces, p)
  {
    if traces != [] {
      var init, last := traces[..|traces| - 1], traces[|traces| - 1];
      CircuitKeysMember(init, p);
      KeysOfMember(last, p);
      if Visited(traces, p) && p !in last {
        var i :| 0 <= i < |traces| && p in traces[i];
        assert init[i] == traces[i];
      }
      if Visited(init, p) {
        var i :| 0 <= i < |init| && p in init[i];
        assert traces[i] == init[i];
      }
    }
  }

  /** Every key of the node set is canonical, so PlaceNodes accepts it. */
  lemma {:induction false} CircuitKeysCanonical(traces: seq<seq<Point>>)
    ensures forall k :: k in CircuitKeys(traces) ==> Canonical(k)
  {
    if traces != [] {
      CircuitKeysCanonical(traces[..|traces| - 1]);
      KeysOfCanonical(traces[|traces| - 1]);
    }
  }

  /** The markers made from the node set sit exactly on the coordinates the traces visit. */
  lemma NodesMatchTraces(traces: seq<seq<Point>>, markers: seq<Point>)
    requires KeysOf(markers) == CircuitKeys(traces)
    ensures forall p :: p in markers <==> Visited(traces, p)
  {
    forall p
      ensures p in markers <==> Visited(traces, p)
    {
      KeysOfMember(markers, p);
      CircuitKeysMember(traces, p);
    }
  }

  /** The `points.length > 1` guard never fails: a trace's coin alone decides its signal. */
  lemma SeedOnCoin(d: TraceDraws)
    requires ValidTraceDraws(d)
    ensures |SeedOf(d, TracePoints(d))| == if d.coin > 0.5 then 1 else 0
    ensures d.coin > 0.5 ==> SeedValid(SeedOf(d, TracePoints(d))[0])
  {
    TraceShape(d);
  }

  /** Every signal record rides a well-formed trace of 4 to 8 points, with progress in
      [0, 1) and speed in [0.002, 0.006). */
  lemma {:induction false} SeedsValid(draws: seq<TraceDraws>, n: nat)
    requires n <= |draws| && ValidDraws(draws)
    ensures |Seeds(draws, TracesOf(draws, n))| <= n
    ensures forall k :: 0 <= k < |Seeds(draws, TracesOf(draws, n))| ==>
      SeedValid(Seeds(draws, TracesOf(draws, n))[k])
  {
    if n > 0 {
      var t := TracesOf(draws, n);
      SeedsValid(draws, n - 1);
      assert t[..n - 1] == TracesOf(draws, n - 1);
      var prev := Seeds(draws, TracesOf(draws, n - 1));
      var last := SeedOf(draws[n - 1], t[n - 1]);
      assert Seeds(draws, t) == prev + last;
      SeedOnCoin(draws[n - 1]);
    }
  }

  /** What every signal record satisfies. */
  predicate SeedValid(s: SignalSeed) {
    MinSegments + 1 <= |s.points| <= MaxSegments + 1 && WellFormed(s.points) &&
    IsDraw(s.progress) && 0.002 <= s.speed < 0.006
  }
}
