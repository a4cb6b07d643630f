/** The z-score of a value against a history, with the sample standard
    deviation (divisor n - 1), and the anomaly test on a z-score. */
module Stats {
  import opened Seqs
  import opened Numeric

  /** The sample standard deviation of at least two points. */
  ghost function SampleStd(history: seq<real>): (s: real)
    requires |history| >= 2
    ensures s >= 0.0
  {
    Sqrt(SquaredDeviations(history, Mean(history)) / (|history| - 1) as real)
  }

  /** The z-score of `current` against `history` (an absent history behaves
      like an empty one). */
  ghost function ZScore(current: real, history: seq<real>): real {
    if |history| < 2 then 0.0
    else
      var std := SampleStd(history);
      if std == 0.0 then 0.0 else (current - Mean(history)) / std
  }

  /** Fewer than two points give a zero score. */
  lemma ShortHistoryScoresZero(current: real, history: seq<real>)
    requires |history| < 2
    ensures ZScore(current, history) == 0.0
  {
  }

  /** The deviation vanishes exactly for a constant history. */
  lemma StdZeroIffConstant(history: seq<real>)
    requires |history| >= 2
    ensures SampleStd(history) == 0.0 <==>
            forall i :: 0 <= i < |history| ==> history[i] == Mean(history)
  {
    var n := (|history| - 1) as real;
    var sq := SquaredDeviations(history, Mean(history));
    SquaredDeviationsZero(history, Mean(history));
    assert sq / n == 0.0 <==> sq == 0.0;
  }

  /** A constant history gives a zero score, whatever the current value. */
  lemma ConstantHistoryScoresZero(current: real, history: seq<real>, c: real)
    requires forall i :: 0 <= i < |history| ==> history[i] == c
    ensures ZScore(current, history) == 0.0
  {
    if |history| >= 2 {
      MeanOfConstant(history, c);
      StdZeroIffConstant(history);
    }
  }

  /** With a varying history, the score has the sign of the distance from
      the mean; otherwise it is zero. */
  lemma ZScoreSign(current: real, history: seq<real>)
    requires |history| >= 2
    requires exists i :: 0 <= i < |history| && history[i] != Mean(history)
    ensures ZScore(current, history) > 0.0 <==> current > Mean(history)
    ensures ZScore(current, history) < 0.0 <==> current < Mean(history)
    ensures ZScore(current, history) == 0.0 <==> current == Mean(history)
  {
    StdZeroIffConstant(history);
    var std := SampleStd(history);
    var d := current - Mean(history);
    assert std > 0.0;
    QuotientSign(d, std);
  }

  lemma QuotientSign(d: real, s: real)
    requires s > 0.0
    ensures d / s > 0.0 <==> d > 0.0
    ensures d / s < 0.0 <==> d < 0.0
  {
    var q := d / s;
    assert q * s == d;
    if q > 0.0 { assert q * s > 0.0; }
    if q < 0.0 { assert (-q) * s > 0.0; }
  }

  /** The default threshold of `is_anomaly`. */
  const DefaultThreshold: real := 2.0

  /** A score is anomalous when its magnitude exceeds the threshold. */
  predicate IsAnomaly(z: real, threshold: real) {
    Abs(z) > threshold
  }

  /** The test ignores the sign and is strict at the threshold. */
  lemma AnomalySymmetric(z: real, threshold: real)
    ensures IsAnomaly(z, threshold) == IsAnomaly(-z, threshold)
    ensures IsAnomaly(z, threshold) <==> z > threshold || z < -threshold
    ensures threshold >= 0.0 ==> !IsAnomaly(threshold, threshold) && !IsAnomaly(-threshold, threshold)
  {
  }
}
