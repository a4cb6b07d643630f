/** The pump detector: a sentiment spike and a volume spike at the same time. */
module Correlator {
  import opened Numeric
  import opened Stats

  /** The anomaly threshold the detector uses for both scores. */
  const PumpThreshold: real := 1.5

  datatype Signal = Signal(ticker: string, sentimentZ: real, volumeZ: real,
                           isPump: bool, confidence: real)

  /** `correlate`: both z-scores, and a pump when both are anomalous, with
      the mean magnitude of the two scores as confidence. */
  ghost function Correlate(ticker: string, sentimentHistory: seq<real>, volumeHistory: seq<real>,
                           currentSentiment: real, currentVolume: real): (s: Signal)
    ensures s.ticker == ticker
    ensures s.sentimentZ == ZScore(currentSentiment, sentimentHistory)
    ensures s.volumeZ == ZScore(currentVolume, volumeHistory)
  {
    var sentZ := ZScore(currentSentiment, sentimentHistory);
    var volZ := ZScore(currentVolume, volumeHistory);
    if IsAnomaly(sentZ, PumpThreshold) && IsAnomaly(volZ, PumpThreshold) then
      Signal(ticker, sentZ, volZ, true, (Abs(sentZ) + Abs(volZ)) / 2.0)
    else
      Signal(ticker, sentZ, volZ, false, 0.0)
  }

  /** A pump is flagged exactly when both scores exceed 1.5 in magnitude, in
      either direction; its confidence is then above 1.5, and 0 otherwise. */
  lemma PumpRule(ticker: string, sh: seq<real>, vh: seq<real>, cs: real, cv: real)
    ensures var s := Correlate(ticker, sh, vh, cs, cv);
            (s.isPump <==> Abs(s.sentimentZ) > 1.5 && Abs(s.volumeZ) > 1.5) &&
            (s.isPump ==> s.confidence > 1.5) &&
            (!s.isPump ==> s.confidence == 0.0)
  {
  }

  /** Joint negative spikes flag a pump as well. */
  lemma NegativeSpikesFlag(ticker: string, sh: seq<real>, vh: seq<real>, cs: real, cv: real)
    requires ZScore(cs, sh) < -1.5 && ZScore(cv, vh) < -1.5
    ensures Correlate(ticker, sh, vh, cs, cv).isPump
  {
  }

  /** A history of fewer than two points rules a pump out. */
  lemma ShortHistoryNoPump(ticker: string, sh: seq<real>, vh: seq<real>, cs: real, cv: real)
    requires |sh| < 2 || |vh| < 2
    ensures !Correlate(ticker, sh, vh, cs, cv).isPump
    ensures Correlate(ticker, sh, vh, cs, cv).confidence == 0.0
  {
  }
}
