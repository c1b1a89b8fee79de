/** The scroll crossfade: as the page scrolls, the circuit layer fades out, the streak
    layer fades in and the clear colour moves from the first background colour to the
    second. Every value is a piecewise-linear function of the scroll progress p. */
module Crossfade {

  function Max(a: real, b: real): real {
    if a >= b then a else b
  }

  function Min(a: real, b: real): real {
    if a <= b then a else b
  }

  /** circuitOpacity = Math.max(0, 1 - scrollProgress * 2) */
  function CircuitOpacity(p: real): real {
    Max(0.0, 1.0 - p * 2.0)
  }

  /** streakOpacity = Math.min(1, scrollProgress * 2) */
  function StreakOpacity(p: real): real {
    Min(1.0, p * 2.0)
  }

  /** transitionProgress = Math.min(1, scrollProgress * 2), computed on its own. */
  function TransitionProgress(p: real): real {
    Min(1.0, p * 2.0)
  }

  /** What one scroll update writes: the four material opacities and the colour blend
      factor handed to lerpColors. */
  datatype Fade = Fade(trace: real, signal: real, node: real, streak: real, blend: real)

  /** The trace lines stay at a fifth of the circuit opacity, the streak sprites at most
      0.7; signals and nodes take the circuit opacity as it is. */
  function FadeAt(p: real): (f: Fade)
    ensures f.trace == 0.2 * f.signal && f.node == f.signal
  {
    var circuit := CircuitOpacity(p);
    var streak := StreakOpacity(p);
    Fade(circuit * 0.2, circuit, circuit, streak * 0.7, TransitionProgress(p))
  }

  /** In the first half of the fade the two layers' opacities add up to one. */
  lemma Complementary(p: real)
    requires 0.0 <= p <= 0.5
    ensures CircuitOpacity(p) + StreakOpacity(p) == 1.0
  {
  }

  /** From half way on the circuit is gone and the streaks are fully in. */
  lemma FadeComplete(p: real)
    requires p >= 0.5
    ensures CircuitOpacity(p) == 0.0 && StreakOpacity(p) == 1.0
    ensures FadeAt(p) == Fade(0.0, 0.0, 0.0, 0.7, 1.0)
  {
  }

  /** Scrolling down never brings the circuit back, nor dims the streaks. */
  lemma Monotone(p: real, q: real)
    requires p <= q
    ensures CircuitOpacity(q) <= CircuitOpacity(p)
    ensures StreakOpacity(p) <= StreakOpacity(q)
    ensures TransitionProgress(p) <= TransitionProgress(q)
  {
  }

  /** On the first half of the fade both layers really move: the circuit strictly fades
      out and the streaks strictly fade in. */
  lemma StrictOnFirstHalf(p: real, q: real)
    requires 0.0 <= p < q <= 0.5
    ensures CircuitOpacity(q) < CircuitOpacity(p)
    ensures StreakOpacity(p) < StreakOpacity(q)
    ensures TransitionProgress(p) < TransitionProgress(q)
  {
  }

  /** The colour blend factor is the streak opacity before its 0.7 scaling. */
  lemma BlendFollowsStreaks(p: real)
    ensures FadeAt(p).blend == StreakOpacity(p)
    ensures FadeAt(p).streak == 0.7 * FadeAt(p).blend
  {
  }

  /** For progress in [0, 1] every written value is a valid opacity or blend factor. */
  lemma InRange(p: real)
    requires 0.0 <= p <= 1.0
    ensures var f := FadeAt(p);
      0.0 <= f.trace <= 0.2 && 0.0 <= f.signal <= 1.0 && 0.0 <= f.node <= 1.0 &&
      0.0 <= f.streak <= 0.7 && 0.0 <= f.blend <= 1.0
  {
  }

  /** Neither formula is clamped on the side below zero: a negative progress gives a
      circuit opacity above one and a streak opacity below zero. */
  lemma UnclampedBelowZero(p: real)
    requires p < 0.0
    ensures CircuitOpacity(p) == 1.0 - 2.0 * p > 1.0
    ensures StreakOpacity(p) == 2.0 * p < 0.0
  {
  }

  /** The top of the page, a quarter of the fade, and its end. */
  lemma Samples()
    ensures FadeAt(0.0) == Fade(0.2, 1.0, 1.0, 0.0, 0.0)
    ensures FadeAt(0.25) == Fade(0.1, 0.5, 0.5, 0.35, 0.5)
    ensures FadeAt(0.5) == Fade(0.0, 0.0, 0.0, 0.7, 1.0)
  {
    assert CircuitOpacity(0.25) == 0.5 && StreakOpacity(0.25) == 0.5 && TransitionProgress(0.25) == 0.5;
    assert CircuitOpacity(0.0) == 1.0 && StreakOpacity(0.0) == 0.0 && TransitionProgress(0.0) == 0.0;
    assert CircuitOpacity(0.5) == 0.0 && StreakOpacity(0.5) == 1.0 && TransitionProgress(0.5) == 1.0;
  }
}
