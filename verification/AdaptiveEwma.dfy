/**
 * The adaptive silence window (src/engine/adaptive_ewma.py), over reals.
 *
 * The square root is a function whose value at the variance is assumed to be a root where
 * a statement needs it.
 */
module AdaptiveEwma {
  import opened Basics
  import opened RealArithmetic

  const DEFAULT_INITIAL_WINDOW_MS := 5000.0
  const DEFAULT_MAX_WINDOW_MS := 300000.0

  // ---- the recurrence -----------------------------------------------------------------------

  function Blend(alpha: real, x: real, y: real): real {
    Times(1.0 - alpha, x) + Times(alpha, y)
  }

  function Widened(alpha: real, variance: real, distance: real): real {
    Times(1.0 - alpha, variance + Times(alpha, Square(distance)))
  }

  ghost function Mean(alpha: real, gaps: seq<real>): real
    requires gaps != []
  {
    if |gaps| == 1 then gaps[0]
    else Blend(alpha, Mean(alpha, gaps[..|gaps| - 1]), gaps[|gaps| - 1])
  }

  ghost function Variance(alpha: real, gaps: seq<real>): real
    requires gaps != []
  {
    if |gaps| == 1 then 0.0
    else
      var init, last := gaps[..|gaps| - 1], gaps[|gaps| - 1];
      Widened(alpha, Variance(alpha, init), last - Mean(alpha, init))
  }

  // ---- the closed form ----------------------------------------------------------------------

  /** The oldest gap carries `(1-a)^(n-1)`, gap `i > 0` carries `a(1-a)^(n-1-i)`. */
  ghost function Weight(alpha: real, n: nat, i: nat): real
    requires i < n
  {
    if i == 0 then Pow(1.0 - alpha, n - 1) else Times(alpha, Pow(1.0 - alpha, n - 1 - i))
  }

  ghost function Weights(alpha: real, n: nat): (w: seq<real>)
    ensures |w| == n && forall i :: 0 <= i < n ==> w[i] == Weight(alpha, n, i)
  {
    seq(n, i requires 0 <= i < n => Weight(alpha, n, i))
  }

  ghost function Dot(w: seq<real>, x: seq<real>): real
    requires |w| == |x|
  {
    if w == [] then 0.0
    else
      var n := |w| - 1;
      Dot(w[..n], x[..n]) + Times(w[n], x[n])
  }

  ghost function Ones(n: nat): (x: seq<real>) {
    seq(n, i requires 0 <= i < n => 1.0)
  }

  /** The squared distances of `gaps` from `c`. */
  ghost function Spread(gaps: seq<real>, c: real): (x: seq<real>)
    ensures |x| == |gaps|
  {
    seq(|gaps|, i requires 0 <= i < |gaps| => Square(gaps[i] - c))
  }

  // ---- mean and variance of the whole history -------------------------------------------------

  lemma WeightGrows(alpha: real, n: nat, i: nat)
    requires i < n
    ensures Weight(alpha, n + 1, i) == Times(1.0 - alpha, Weight(alpha, n, i))
  {
    var p := Pow(1.0 - alpha, n - 1 - i);
    assert Pow(1.0 - alpha, n - i) == Times(1.0 - alpha, p);
    Shuffle(alpha, 1.0 - alpha, p);
  }

  ghost predicate Scaled(w: seq<real>, v: seq<real>, c: real) {
    |v| == |w| && forall i :: 0 <= i < |w| ==> v[i] == Times(c, w[i])
  }

  lemma {:induction false} DotScales(w: seq<real>, v: seq<real>, x: seq<real>, c: real)
    requires |x| == |w| && Scaled(w, v, c)
    ensures Dot(v, x) == Times(c, Dot(w, x))
  {
    if w != [] {
      var n := |w| - 1;
      DotScales(w[..n], v[..n], x[..n], c);
      Shuffle(c, w[n], x[n]);
      Distributes(c, Dot(w[..n], x[..n]), Times(w[n], x[n]));
    }
  }

  lemma WeightsGrow(alpha: real, n: nat)
    requires n > 0
    ensures Scaled(Weights(alpha, n), Weights(alpha, n + 1)[..n], 1.0 - alpha)
    ensures Weights(alpha, n + 1)[n] == alpha
  {
    var c, w, v := 1.0 - alpha, Weights(alpha, n), Weights(alpha, n + 1)[..n];
    forall i | 0 <= i < |w| ensures v[i] == Times(c, w[i]) { WeightGrows(alpha, n, i); }
    assert Pow(1.0 - alpha, 0) == 1.0;
  }

  /** One more value moves a weighted sum the way the loop moves the mean. */
  lemma DotGrows(alpha: real, x: seq<real>)
    requires |x| > 1
    ensures var n := |x| - 1;
            Dot(Weights(alpha, |x|), x) == Blend(alpha, Dot(Weights(alpha, n), x[..n]), x[n])
  {
    var n, w := |x| - 1, Weights(alpha, |x|);
    WeightsGrow(alpha, n);
    DotScales(Weights(alpha, n), w[..n], x[..n], 1.0 - alpha);
    assert Dot(w, x) == Dot(w[..n], x[..n]) + Times(w[n], x[n]);
  }

  lemma DotOfOne(alpha: real, x: seq<real>)
    requires |x| == 1
    ensures Dot(Weights(alpha, 1), x) == x[0]
  {
    var w := Weights(alpha, 1);
    assert w[0] == Weight(alpha, 1, 0) == Pow(1.0 - alpha, 0) == 1.0;
    assert Dot(w[..0], x[..0]) == 0.0;
  }

  lemma {:induction false} WeightsSumToOne(alpha: real, n: nat)
    requires n > 0
    ensures Dot(Weights(alpha, n), Ones(n)) == 1.0
  {
    if n == 1 { DotOfOne(alpha, Ones(1)); }
    else {
      WeightsSumToOne(alpha, n - 1);
      assert Ones(n)[..n - 1] == Ones(n - 1);
      DotGrows(alpha, Ones(n));
    }
  }

  lemma {:induction false} MeanIsWeighted(alpha: real, gaps: seq<real>)
    requires gaps != []
    ensures Mean(alpha, gaps) == Dot(Weights(alpha, |gaps|), gaps)
  {
    if |gaps| == 1 { DotOfOne(alpha, gaps); }
    else {
      MeanIsWeighted(alpha, gaps[..|gaps| - 1]);
      DotGrows(alpha, gaps);
    }
  }

  /** Mixing squares about a centre: what the mixed square lacks is what the variance gains. */
  lemma MovedSpread(alpha: real, variance: real, mean: real, gap: real, c: real)
    ensures Blend(alpha, variance + Square(mean - c), Square(gap - c))
         == Widened(alpha, variance, gap - mean) + Square(Blend(alpha, mean, gap) - c)
  {
    var beta, m, g := 1.0 - alpha, mean - c, gap - c;
    assert Blend(alpha, mean, gap) - c == Blend(alpha, m, g);
    assert gap - mean == g - m;
    Distributes(beta, variance, Square(m));
    Distributes(beta, variance, Times(alpha, Square(g - m)));
    MixedSquares(alpha, m, g);
  }

  lemma MixedSquares(alpha: real, m: real, g: real)
    ensures Blend(alpha, Square(m), Square(g))
         == Times(1.0 - alpha, Times(alpha, Square(g - m))) + Square(Blend(alpha, m, g))
  {
    var beta, mm, gg, mg := 1.0 - alpha, m * m, g * g, m * g;
    assert (g - m) * (g - m) == gg - 2.0 * mg + mm;
    var moved := beta * m + alpha * g;
    calc {
      moved * moved;
      (beta * m) * (beta * m) + 2.0 * ((beta * m) * (alpha * g)) + (alpha * g) * (alpha * g);
      { assert (beta * m) * (beta * m) == (beta * beta) * mm;
        assert (alpha * g) * (alpha * g) == (alpha * alpha) * gg;
        assert (beta * m) * (alpha * g) == (beta * alpha) * mg; }
      (beta * beta) * mm + 2.0 * ((beta * alpha) * mg) + (alpha * alpha) * gg;
    }
    calc {
      beta * (alpha * (gg - 2.0 * mg + mm)) + moved * moved;
      (beta * alpha) * gg - 2.0 * ((beta * alpha) * mg) + (beta * alpha) * mm + moved * moved;
      (beta * alpha + alpha * alpha) * gg + (beta * alpha + beta * beta) * mm;
      { assert beta * alpha + alpha * alpha == alpha; assert beta * alpha + beta * beta == beta; }
      alpha * gg + beta * mm;
    }
  }

  lemma SpreadOfOne(alpha: real, gaps: seq<real>, c: real)
    requires |gaps| == 1
    ensures Dot(Weights(alpha, 1), Spread(gaps, c)) == Variance(alpha, gaps) + Square(Mean(alpha, gaps) - c)
  {
    DotOfOne(alpha, Spread(gaps, c));
  }

  lemma SpreadGrows(alpha: real, gaps: seq<real>, c: real)
    requires |gaps| > 1
    ensures var n := |gaps| - 1;
            Dot(Weights(alpha, |gaps|), Spread(gaps, c))
            == Blend(alpha, Dot(Weights(alpha, n), Spread(gaps[..n], c)), Square(gaps[n] - c))
  {
    var n := |gaps| - 1;
    assert Spread(gaps, c)[..n] == Spread(gaps[..n], c);
    DotGrows(alpha, Spread(gaps, c));
  }

  /** The weighted spread about any centre, from the variance and the distance to the mean. */
  lemma {:induction false} SpreadIsWeighted(alpha: real, gaps: seq<real>, c: real)
    requires gaps != []
    ensures Dot(Weights(alpha, |gaps|), Spread(gaps, c)) == Variance(alpha, gaps) + Square(Mean(alpha, gaps) - c)
  {
    var n := |gaps| - 1;
    if n == 0 {
      SpreadOfOne(alpha, gaps, c);
    } else {
      SpreadIsWeighted(alpha, gaps[..n], c);
      SpreadGrows(alpha, gaps, c);
      MovedSpread(alpha, Variance(alpha, gaps[..n]), Mean(alpha, gaps[..n]), gaps[n], c);
    }
  }

  /**
   * The single pass computes the exponentially weighted mean and variance of the whole
   * history: weights that sum to one, and the weighted spread about the final mean.
   */
  lemma LoopIsTheClosedForm(alpha: real, gaps: seq<real>)
    requires gaps != []
    ensures Dot(Weights(alpha, |gaps|), Ones(|gaps|)) == 1.0
    ensures Mean(alpha, gaps) == Dot(Weights(alpha, |gaps|), gaps)
    ensures Variance(alpha, gaps) == Dot(Weights(alpha, |gaps|), Spread(gaps, Mean(alpha, gaps)))
  {
    WeightsSumToOne(alpha, |gaps|);
    MeanIsWeighted(alpha, gaps);
    var mean := Mean(alpha, gaps);
    SpreadIsWeighted(alpha, gaps, mean);
    assert mean - mean == 0.0 && Square(0.0) == 0.0;
  }

  // ---- bounds -----------------------------------------------------------------------------------

  ghost predicate Within(gaps: seq<real>, low: real, high: real) {
    forall i :: 0 <= i < |gaps| ==> low <= gaps[i] <= high
  }

  /** How far a mean inside `[low, high]` lets values inside it spread. */
  function Room(mean: real, low: real, high: real): real {
    Times(high - mean, mean - low)
  }

  ghost predicate InRoom(mean: real, variance: real, low: real, high: real) {
    low <= mean <= high && 0.0 <= variance <= Room(mean, low, high)
  }

  lemma BlendGrows(alpha: real, x: real, y: real, x': real, y': real)
    requires 0.0 <= alpha <= 1.0 && x <= x' && y <= y'
    ensures Blend(alpha, x, y) <= Blend(alpha, x', y')
  {
    Scale(alpha, y, y');
    Scale(1.0 - alpha, x, x');
  }

  lemma BlendOfSame(alpha: real, x: real)
    ensures Blend(alpha, x, x) == x
  {
  }

  lemma BlendBetween(alpha: real, x: real, y: real, low: real, high: real)
    requires 0.0 <= alpha <= 1.0 && low <= x <= high && low <= y <= high
    ensures low <= Blend(alpha, x, y) <= high
  {
    BlendOfSame(alpha, low);
    BlendOfSame(alpha, high);
    BlendGrows(alpha, low, low, x, y);
    BlendGrows(alpha, x, y, high, high);
  }

  /** How room mixes: the cross term is exactly what the variance gains. */
  lemma MixedRoom(alpha: real, mean: real, gap: real, low: real, high: real)
    ensures Room(Blend(alpha, mean, gap), low, high)
         == Blend(alpha, Room(mean, low, high), Room(gap, low, high)) + Widened(alpha, 0.0, gap - mean)
  {
    var mixed := Blend(alpha, mean, gap);
    MixedSquares(alpha, mean, gap);
    RoomIs(mean, low, high);
    RoomIs(gap, low, high);
    RoomIs(mixed, low, high);
    BlendOfLine(alpha, mean, gap, high + low, high * low);
  }

  lemma RoomIs(x: real, low: real, high: real)
    ensures Room(x, low, high) == (high + low) * x - Square(x) - high * low
  {
  }

  lemma BlendOfLine(alpha: real, x: real, y: real, slope: real, at: real)
    ensures Blend(alpha, slope * x - Square(x) - at, slope * y - Square(y) - at)
         == slope * Blend(alpha, x, y) - Blend(alpha, Square(x), Square(y)) - at
  {
    var beta, xx, yy := 1.0 - alpha, Square(x), Square(y);
    assert beta * (slope * x - xx - at) == slope * (beta * x) - beta * xx - beta * at;
    assert alpha * (slope * y - yy - at) == slope * (alpha * y) - alpha * yy - alpha * at;
    assert slope * (beta * x + alpha * y) == slope * (beta * x) + slope * (alpha * y);
  }

  lemma WidenedSplits(alpha: real, variance: real, d: real)
    requires 0.0 <= alpha <= 1.0
    ensures Widened(alpha, variance, d) == Times(1.0 - alpha, variance) + Widened(alpha, 0.0, d)
    ensures Widened(alpha, 0.0, d) >= 0.0
  {
    var gained := Times(alpha, Square(d));
    Distributes(1.0 - alpha, variance, gained);
    assert d * d >= 0.0;
    Scale(alpha, 0.0, Square(d));
    Scale(1.0 - alpha, 0.0, gained);
  }

  lemma MixedBounds(alpha: real, mean: real, variance: real, gap: real, low: real, high: real)
    requires 0.0 <= alpha <= 1.0 && InRoom(mean, variance, low, high) && low <= gap <= high
    ensures InRoom(Blend(alpha, mean, gap), Widened(alpha, variance, gap - mean), low, high)
  {
    BlendBetween(alpha, mean, gap, low, high);
    MixedRoom(alpha, mean, gap, low, high);
    WidenedSplits(alpha, variance, gap - mean);
    var room, other := Room(mean, low, high), Room(gap, low, high);
    assert other >= 0.0 by { Scale(high - gap, 0.0, gap - low); }
    BlendGrows(alpha, variance, 0.0, room, other);
    Scale(1.0 - alpha, 0.0, variance);
  }

  lemma {:induction false} MeanAndVarianceBounded(alpha: real, gaps: seq<real>, low: real, high: real)
    requires gaps != [] && 0.0 <= alpha <= 1.0 && Within(gaps, low, high)
    ensures InRoom(Mean(alpha, gaps), Variance(alpha, gaps), low, high)
  {
    var n := |gaps| - 1;
    if n == 0 {
      Scale(high - gaps[0], 0.0, gaps[0] - low);
    } else {
      MeanAndVarianceBounded(alpha, gaps[..n], low, high);
      MixedBounds(alpha, Mean(alpha, gaps[..n]), Variance(alpha, gaps[..n]), gaps[n], low, high);
    }
  }

  lemma RoomIsSmall(mean: real, low: real, high: real)
    ensures Room(mean, low, high) <= Square(high - low) / 4.0
  {
    var x, y := high - mean, mean - low;
    assert (x - y) * (x - y) >= 0.0;
    assert (x + y) * (x + y) == (x - y) * (x - y) + 4.0 * (x * y);
    assert x + y == high - low;
  }

  /** The mean stays between the extremes, the variance below a quarter of their distance squared. */
  lemma EwmaStaysInRange(alpha: real, gaps: seq<real>, low: real, high: real)
    requires gaps != [] && 0.0 <= alpha <= 1.0 && Within(gaps, low, high)
    ensures low <= Mean(alpha, gaps) <= high
    ensures 0.0 <= Variance(alpha, gaps) <= Square(high - low) / 4.0
  {
    MeanAndVarianceBounded(alpha, gaps, low, high);
    RoomIsSmall(Mean(alpha, gaps), low, high);
  }

  // ---- the prediction -----------------------------------------------------------------------------

  datatype Prediction = Prediction(quietAt: int, mean: real, variance: real)

  function Ceil(x: real): int {
    -((-x).Floor)
  }

  /** `int()` of a float: towards zero. */
  function Truncated(x: real): int {
    if x < 0.0 then Ceil(x) else x.Floor
  }

  function Least(x: real, y: real): real {
    if y < x then y else x
  }

  predicate IsRoot(root: real, x: real) {
    root >= 0.0 && Square(root) == x
  }

  function Gain(count: nat): real {
    2.0 / (count + 1) as real
  }

  ghost predicate AllValid(gaps: seq<real>) {
    forall i :: 0 <= i < |gaps| ==> gaps[i] >= 0.0
  }

  /** `calculate_quiet_deadline`; `None` is a ValueError. */
  ghost function Predict(history: seq<real>, lastGap: real, now: int, maxWindow: Option<real>, sqrt: real -> real)
      : Option<Prediction> {
    var ceiling := maxWindow.GetOr(DEFAULT_MAX_WINDOW_MS);
    if !AllValid(history) || lastGap < 0.0 || ceiling <= 0.0 then None
    else if history == [] then
      Some(Prediction(Truncated(now as real + Least(DEFAULT_INITIAL_WINDOW_MS, ceiling)), lastGap, 0.0))
    else
      var gaps := history + [lastGap];
      var mean, variance := Mean(Gain(|gaps|), gaps), Variance(Gain(|gaps|), gaps);
      var window := Ceil(Least(mean + sqrt(variance), ceiling));
      Some(Prediction(now + (if window < 1 then 1 else window), mean, variance))
  }

  method Smooth(gaps: seq<real>) returns (mean: real, variance: real)
    requires gaps != []
    ensures mean == Mean(Gain(|gaps|), gaps) && variance == Variance(Gain(|gaps|), gaps)
  {
    var alpha := Gain(|gaps|);
    mean, variance := gaps[0], 0.0;
    var i := 1;
    while i < |gaps|
      invariant 1 <= i <= |gaps|
      invariant mean == Mean(alpha, gaps[..i]) && variance == Variance(alpha, gaps[..i])
    {
      assert gaps[..i + 1][..i] == gaps[..i];
      var previous := mean;
      mean := Blend(alpha, mean, gaps[i]);
      variance := Widened(alpha, variance, gaps[i] - previous);
      i := i + 1;
    }
    assert gaps[..i] == gaps;
  }

  method CalculateQuietDeadline(history: seq<real>, lastGap: real, now: int, maxWindow: Option<real>, sqrt: real -> real)
      returns (r: Option<Prediction>)
    ensures r == Predict(history, lastGap, now, maxWindow, sqrt)
  {
    var i := 0;
    while i < |history|
      invariant 0 <= i <= |history| && AllValid(history[..i])
    {
      if history[i] < 0.0 { return None; }
      i := i + 1;
    }
    assert history[..i] == history;
    var ceiling := maxWindow.GetOr(DEFAULT_MAX_WINDOW_MS);
    if lastGap < 0.0 || ceiling <= 0.0 { return None; }
    if history == [] {
      return Some(Prediction(Truncated(now as real + Least(DEFAULT_INITIAL_WINDOW_MS, ceiling)), lastGap, 0.0));
    }
    var mean, variance := Smooth(history + [lastGap]);
    var window := Ceil(Least(mean + sqrt(variance), ceiling));
    r := Some(Prediction(now + (if window < 1 then 1 else window), mean, variance));
  }

  lemma GainInRange(count: nat)
    requires count > 0
    ensures 0.0 < Gain(count) <= 1.0
  {
  }

  lemma RootBelow(root: real, x: real, bound: real)
    requires IsRoot(root, x) && 0.0 <= bound && x <= Square(bound)
    ensures root <= bound
  {
    if root > bound {
      SquareDifference(root, bound);
      Positive(root - bound, root + bound);
    }
  }

  lemma CeilMonotone(x: real, y: real)
    requires x <= y
    ensures Ceil(x) <= Ceil(y)
  {
  }

  lemma DeviationIsSmall(gaps: seq<real>, low: real, high: real, root: real)
    requires gaps != [] && Within(gaps, low, high) && low <= high
    requires IsRoot(root, Variance(Gain(|gaps|), gaps))
    ensures 0.0 <= root <= (high - low) / 2.0
  {
    GainInRange(|gaps|);
    EwmaStaysInRange(Gain(|gaps|), gaps, low, high);
    SquareOfHalf(high - low);
    RootBelow(root, Variance(Gain(|gaps|), gaps), (high - low) / 2.0);
  }

  /** The window predicted from gaps between `low` and `high` lies between them, but for half their distance. */
  lemma WindowFollowsTheGaps(history: seq<real>, lastGap: real, now: int, maxWindow: Option<real>, sqrt: real -> real,
                             low: real, high: real)
    requires history != [] && Predict(history, lastGap, now, maxWindow, sqrt).Some?
    requires Within(history + [lastGap], low, high) && low <= high
    requires var v := Predict(history, lastGap, now, maxWindow, sqrt).value.variance; IsRoot(sqrt(v), v)
    ensures var p, ceiling := Predict(history, lastGap, now, maxWindow, sqrt).value, maxWindow.GetOr(DEFAULT_MAX_WINDOW_MS);
            && low <= p.mean <= high
            && now + Ceil(Least(low, ceiling)) <= p.quietAt
            && (p.quietAt <= now + Ceil(Least(high + (high - low) / 2.0, ceiling)) || p.quietAt == now + 1)
  {
    var gaps := history + [lastGap];
    var p, ceiling := Predict(history, lastGap, now, maxWindow, sqrt).value, maxWindow.GetOr(DEFAULT_MAX_WINDOW_MS);
    GainInRange(|gaps|);
    EwmaStaysInRange(Gain(|gaps|), gaps, low, high);
    DeviationIsSmall(gaps, low, high, sqrt(p.variance));
    var window := Least(p.mean + sqrt(p.variance), ceiling);
    CeilMonotone(Least(low, ceiling), window);
    CeilMonotone(window, Least(high + (high - low) / 2.0, ceiling));
  }

  lemma CeilIs(x: real)
    ensures x <= Ceil(x) as real < x + 1.0
  {
  }

  /** Refused exactly for a negative gap or a ceiling that is not positive. */
  lemma RefusedExactly(history: seq<real>, lastGap: real, now: int, maxWindow: Option<real>, sqrt: real -> real)
    ensures Predict(history, lastGap, now, maxWindow, sqrt).None? <==>
              (exists i :: 0 <= i < |history| && history[i] < 0.0) || lastGap < 0.0 || (maxWindow.Some? && maxWindow.value <= 0.0)
  {
  }

  /** Without a history: five seconds, or the ceiling if that is less, in whole milliseconds. */
  lemma FirstPredictionIsExact(lastGap: real, now: int, maxWindow: Option<real>, sqrt: real -> real)
    requires now >= 0 && Predict([], lastGap, now, maxWindow, sqrt).Some?
    ensures var window := Predict([], lastGap, now, maxWindow, sqrt).value.quietAt - now;
            var limit := if maxWindow.Some? && maxWindow.value < 5000.0 then maxWindow.value else 5000.0;
            window as real <= limit < window as real + 1.0
  {
  }

  /**
   * With a history: the gaps, the newest weighing 2 in n + 1, have a weighted mean and about
   * it a weighted variance; the window is the mean and one deviation, cut off at the ceiling,
   * in whole milliseconds rounded up and at least one.
   */
  lemma PredictionIsExact(history: seq<real>, lastGap: real, now: int, maxWindow: Option<real>, sqrt: real -> real)
    requires history != [] && Predict(history, lastGap, now, maxWindow, sqrt).Some?
    ensures var p, gaps := Predict(history, lastGap, now, maxWindow, sqrt).value, history + [lastGap];
            var weights := Weights(2.0 / (|gaps| + 1) as real, |gaps|);
            var window := p.quietAt - now;
            var wanted := p.mean + sqrt(p.variance);
            var limit := if maxWindow.Some? then maxWindow.value else 300000.0;
            && p.mean == Dot(weights, gaps) && p.variance == Dot(weights, Spread(gaps, p.mean))
            && window >= 1
            && (window as real >= wanted || window as real >= limit)
            && (window > 1 ==> window as real < wanted + 1.0 && window as real < limit + 1.0)
  {
    var gaps := history + [lastGap];
    LoopIsTheClosedForm(Gain(|gaps|), gaps);
    var p := Predict(history, lastGap, now, maxWindow, sqrt).value;
    CeilIs(Least(p.mean + sqrt(p.variance), maxWindow.GetOr(DEFAULT_MAX_WINDOW_MS)));
  }

  /** A prediction lies ahead of its own moment, except for a first one under a ceiling below 1 ms. */
  lemma PredictionIsAhead(history: seq<real>, lastGap: real, now: int, maxWindow: Option<real>, sqrt: real -> real)
    requires now >= 0 && Predict(history, lastGap, now, maxWindow, sqrt).Some?
    ensures var at, ceiling := Predict(history, lastGap, now, maxWindow, sqrt).value.quietAt, maxWindow.GetOr(DEFAULT_MAX_WINDOW_MS);
            && (at > now <==> history != [] || ceiling >= 1.0)
            && now <= at <= now + Ceil(ceiling)
            && (history == [] ==> at <= now + 5000)
  {
    var ceiling := maxWindow.GetOr(DEFAULT_MAX_WINDOW_MS);
    if history != [] {
      var p := Predict(history, lastGap, now, maxWindow, sqrt).value;
      CeilMonotone(Least(p.mean + sqrt(p.variance), ceiling), ceiling);
    }
  }
}
