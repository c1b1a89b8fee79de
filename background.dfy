/** The whole procedural background: the scene built once on mount, the per-frame
    update of every signal and streak, and the crossfade applied on every scroll. */
module Background {
  import opened Grid
  import opened Traces
  import opened NodeKeys
  import opened Circuit
  import opened SignalMotion
  import opened Streaks
  import opened Crossfade

  /** No object occurs twice in a sequence of signals. */
  predicate DistinctSignals(ss: seq<Signal>) {
    forall i, j :: 0 <= i < j < |ss| ==> ss[i] != ss[j]
  }

  /** No object occurs twice in a sequence of streaks. */
  predicate DistinctStreaks(ss: seq<Streak>) {
    forall i, j :: 0 <= i < j < |ss| ==> ss[i] != ss[j]
  }

  /** What every signal keeps: a well-formed trace of 4 to 8 points, progress in [0, 1)
      and the speed it was created with. */
  predicate SignalOk(s: Signal)
    reads s
  {
    s.Valid() && MinSegments + 1 <= |s.points| <= MaxSegments + 1 && WellFormed(s.points) &&
    0.002 <= s.speed < 0.006
  }

  /** A signal as its record made it: the record's trace, progress and speed, with its
      particle still at the origin. */
  predicate MadeFrom(s: Signal, seed: SignalSeed)
    reads s
  {
    s.points == seed.points && s.progress == seed.progress &&
    s.speed == seed.speed && s.position == At(0.0, 0.0)
  }

  /** The signal objects for the records picked during generation; each particle starts
      at the origin. */
  method MakeSignals(seeds: seq<SignalSeed>) returns (ss: seq<Signal>)
    ensures |ss| == |seeds| && DistinctSignals(ss)
    ensures forall i :: 0 <= i < |ss| ==> fresh(ss[i])
    ensures forall i :: 0 <= i < |ss| ==> MadeFrom(ss[i], seeds[i])
  {
    ss := [];
    var i := 0;
    while i < |seeds|
      invariant 0 <= i <= |seeds| && |ss| == i && DistinctSignals(ss)
      invariant forall k :: 0 <= k < i ==> fresh(ss[k])
      invariant forall k :: 0 <= k < i ==> MadeFrom(ss[k], seeds[k])
    {
      var s := new Signal(seeds[i].points, seeds[i].progress, seeds[i].speed);
      ss := ss + [s];
      i := i + 1;
    }
  }

  /** A streak as its draws placed it, still at its spawn x. */
  predicate SpawnedFrom(s: Streak, d: StreakDraws)
    reads s
  {
    ValidStreakDraws(d) &&
    s.x == SpawnX(d.x) && s.y == SpawnY(d.y) && s.z == SpawnZ(d.z) &&
    s.width == StreakWidth && s.height == SpawnHeight(d.height) && s.speed == SpawnSpeed(d.speed)
  }

  /** The streak sprites, one per set of draws. */
  method MakeStreaks(draws: seq<StreakDraws>) returns (ss: seq<Streak>)
    requires forall i :: 0 <= i < |draws| ==> ValidStreakDraws(draws[i])
    ensures |ss| == |draws| && DistinctStreaks(ss)
    ensures forall i :: 0 <= i < |ss| ==> fresh(ss[i])
    ensures forall i :: 0 <= i < |ss| ==> SpawnedFrom(ss[i], draws[i]) && ss[i].Valid()
  {
    ss := [];
    var i := 0;
    while i < |draws|
      invariant 0 <= i <= |draws| && |ss| == i && DistinctStreaks(ss)
      invariant forall k :: 0 <= k < i ==> fresh(ss[k])
      invariant forall k :: 0 <= k < i ==> SpawnedFrom(ss[k], draws[k]) && ss[k].Valid()
    {
      var s := new Streak(draws[i]);
      ss := ss + [s];
      i := i + 1;
    }
  }

  /** signals.forEach in animate: every signal takes one frame, each on its own. */
  method TickSignals(ss: seq<Signal>)
    requires DistinctSignals(ss)
    modifies set i | 0 <= i < |ss| :: ss[i]
    ensures forall i :: 0 <= i < |ss| ==>
      ss[i].progress == Mod1(old(ss[i].progress) + ss[i].speed) &&
      ss[i].position == Place(ss[i].points, Locate(ss[i].points, Distance(ss[i].progress, TotalLength(ss[i].points))), old(ss[i].position))
    ensures forall i :: 0 <= i < |ss| && old(SignalOk(ss[i])) ==> SignalOk(ss[i])
  {
    var i := 0;
    while i < |ss|
      invariant 0 <= i <= |ss|
      invariant forall k :: 0 <= k < i ==>
        ss[k].progress == Mod1(old(ss[k].progress) + ss[k].speed) &&
        ss[k].position == Place(ss[k].points, Locate(ss[k].points, Distance(ss[k].progress, TotalLength(ss[k].points))), old(ss[k].position))
      invariant forall k :: 0 <= k < i && old(SignalOk(ss[k])) ==> SignalOk(ss[k])
      invariant forall k :: i <= k < |ss| ==> ss[k].progress == old(ss[k].progress) && ss[k].position == old(ss[k].position)
    {
      ss[i].Tick();
      i := i + 1;
    }
  }

  /** streaks.forEach in animate: every streak takes one frame, each on its own. */
  method TickStreaks(ss: seq<Streak>)
    requires DistinctStreaks(ss)
    modifies set i | 0 <= i < |ss| :: ss[i]
    ensures forall i :: 0 <= i < |ss| ==> ss[i].x == StreakStep(old(ss[i].x), ss[i].speed)
    ensures forall i :: 0 <= i < |ss| && old(ss[i].Valid()) ==> ss[i].Valid()
  {
    var i := 0;
    while i < |ss|
      invariant 0 <= i <= |ss|
      invariant forall k :: 0 <= k < i ==> ss[k].x == StreakStep(old(ss[k].x), ss[k].speed)
      invariant forall k :: 0 <= k < i && old(ss[k].Valid()) ==> ss[k].Valid()
      invariant forall k :: i <= k < |ss| ==> ss[k].x == old(ss[k].x)
    {
      ss[i].Tick();
      i := i + 1;
    }
  }

  /** The circuit half of the mount effect: the traces, the node set, one marker per
      node, and the records the signals are made from. */
  method BuildCircuit(draws: seq<TraceDraws>)
      returns (traces: seq<seq<Point>>, keys: set<string>, markers: seq<Point>, seeds: seq<SignalSeed>)
    requires |draws| == TraceCount && ValidDraws(draws)
    ensures traces == TracesOf(draws, TraceCount)
    ensures forall k :: 0 <= k < |traces| ==> MinSegments + 1 <= |traces[k]| <= MaxSegments + 1 && WellFormed(traces[k])
    ensures keys == CircuitKeys(traces)
    ensures KeysOf(markers) == keys && |markers| == |keys|
    ensures forall q :: q in markers <==> Visited(traces, q)
    ensures seeds == Seeds(draws, traces)
    ensures forall i :: 0 <= i < |seeds| ==> SeedValid(seeds[i])
  {
    traces, keys, seeds := GenerateCircuit(draws);
    CircuitKeysCanonical(traces);
    markers := PlaceNodes(keys);
    NodesMatchTraces(traces, markers);
    SeedsValid(draws, TraceCount);
    TracesShape(draws, TraceCount, traces);
  }

  /** Everything the mount effect builds: the circuit, then a signal per record and the
      streaks. */
  method Mount(draws: seq<TraceDraws>, streakDraws: seq<StreakDraws>)
      returns (traces: seq<seq<Point>>, keys: set<string>, markers: seq<Point>,
               signals: seq<Signal>, streaks: seq<Streak>)
    requires |draws| == TraceCount && ValidDraws(draws)
    requires |streakDraws| == StreakCount
    requires forall i :: 0 <= i < |streakDraws| ==> ValidStreakDraws(streakDraws[i])
    ensures traces == TracesOf(draws, TraceCount)
    ensures forall k :: 0 <= k < |traces| ==> MinSegments + 1 <= |traces[k]| <= MaxSegments + 1 && WellFormed(traces[k])
    ensures keys == CircuitKeys(traces)
    ensures KeysOf(markers) == keys && |markers| == |keys|
    ensures forall q :: q in markers <==> Visited(traces, q)
    ensures |signals| == |Seeds(draws, traces)| && |streaks| == StreakCount
    ensures DistinctSignals(signals) && DistinctStreaks(streaks)
    ensures forall i :: 0 <= i < |signals| ==> SignalOk(signals[i])
    ensures forall i :: 0 <= i < |streaks| ==> streaks[i].Valid()
    ensures forall i :: 0 <= i < |signals| ==> fresh(signals[i]) && MadeFrom(signals[i], Seeds(draws, traces)[i])
    ensures forall i :: 0 <= i < |streaks| ==> fresh(streaks[i]) && SpawnedFrom(streaks[i], streakDraws[i])
  {
    var seeds;
    traces, keys, markers, seeds := BuildCircuit(draws);
    signals := MakeSignals(seeds);
    streaks := MakeStreaks(streakDraws);
  }

  /** The background scene. */
  class Scene {
    var traces: seq<seq<Point>>
    var nodeKeys: set<string>
    var markers: seq<Point>
    var signals: seq<Signal>
    var streaks: seq<Streak>
    var fade: Fade

    /** The scene's invariant: distinct signal and streak objects, each in its range. */
    predicate Valid()
      reads this, signals, streaks
    {
      DistinctSignals(signals) && DistinctStreaks(streaks) &&
      (forall i :: 0 <= i < |signals| ==> SignalOk(signals[i])) &&
      (forall i :: 0 <= i < |streaks| ==> streaks[i].Valid())
    }

    /** Mounting: the scene's parts, then the scroll effect run once with the current
        scroll progress. */
    constructor (draws: seq<TraceDraws>, streakDraws: seq<StreakDraws>, p: real)
      requires |draws| == TraceCount && ValidDraws(draws)
      requires |streakDraws| == StreakCount
      requires forall i :: 0 <= i < |streakDraws| ==> ValidStreakDraws(streakDraws[i])
      ensures Valid()
      ensures traces == TracesOf(draws, TraceCount)
      ensures forall k :: 0 <= k < |traces| ==> MinSegments + 1 <= |traces[k]| <= MaxSegments + 1 && WellFormed(traces[k])
      ensures nodeKeys == CircuitKeys(traces)
      ensures KeysOf(markers) == nodeKeys && |markers| == |nodeKeys|
      ensures forall q :: q in markers <==> Visited(traces, q)
      ensures |signals| == |Seeds(draws, traces)| && |streaks| == StreakCount
      ensures forall i :: 0 <= i < |signals| ==> fresh(signals[i]) && MadeFrom(signals[i], Seeds(draws, traces)[i])
      ensures forall i :: 0 <= i < |streaks| ==> fresh(streaks[i]) && SpawnedFrom(streaks[i], streakDraws[i])
      ensures fade == FadeAt(p)
    {
      var ts, keys, ms, sigs, strs := Mount(draws, streakDraws);
      traces, nodeKeys, markers := ts, keys, ms;
      signals, streaks := sigs, strs;
      fade := FadeAt(p);
    }

    /** One animation frame: every signal, then every streak. */
    method Animate()
      requires Valid()
      modifies signals, streaks
      ensures Valid()
      ensures forall i :: 0 <= i < |signals| ==>
        signals[i].progress == Mod1(old(signals[i].progress) + signals[i].speed) &&
        signals[i].position == Place(signals[i].points,
          Locate(signals[i].points, Distance(signals[i].progress, TotalLength(signals[i].points))),
          old(signals[i].position))
      ensures forall i :: 0 <= i < |streaks| ==> streaks[i].x == StreakStep(old(streaks[i].x), streaks[i].speed)
    {
      TickSignals(signals);
      TickStreaks(streaks);
    }

    /** The scroll effect: write the crossfade for progress p into the materials. */
    method OnScroll(p: real)
      modifies this
      ensures fade == FadeAt(p)
      ensures traces == old(traces) && nodeKeys == old(nodeKeys) && markers == old(markers)
      ensures signals == old(signals) && streaks == old(streaks)
    {
      fade := FadeAt(p);
    }
  }
}
