/** Technical indicators over a price series: RSI with Wilder smoothing, MACD
    built from exponential moving averages, and Bollinger bands. */
module Indicators {
  import opened Seqs
  import opened Numeric

  // ---- RSI ----

  /** The differences of consecutive prices. */
  function Deltas(prices: seq<real>): (ds: seq<real>)
    ensures |ds| == if |prices| == 0 then 0 else |prices| - 1
    ensures forall i :: 0 <= i < |ds| ==> ds[i] == prices[i + 1] - prices[i]
  {
    if |prices| == 0 then []
    else seq(|prices| - 1, i requires 0 <= i < |prices| - 1 => prices[i + 1] - prices[i])
  }

  function Gain(d: real): (g: real)
    ensures g >= 0.0
  {
    if d > 0.0 then d else 0.0
  }

  function Loss(d: real): (l: real)
    ensures l >= 0.0
  {
    if d < 0.0 then -d else 0.0
  }

  /** The sum of the positive deltas. */
  function PositiveSum(ds: seq<real>): (s: real)
    ensures s >= 0.0
  {
    if ds == [] then 0.0 else PositiveSum(ds[..|ds| - 1]) + Gain(ds[|ds| - 1])
  }

  /** The sum of the negative deltas (itself never positive). */
  function NegativeSum(ds: seq<real>): (s: real)
    ensures s <= 0.0
  {
    if ds == [] then 0.0 else NegativeSum(ds[..|ds| - 1]) - Loss(ds[|ds| - 1])
  }

  /** Wilder's smoothing of an average with a new value. */
  function Smooth(avg: real, x: real, period: nat): (r: real)
    requires period >= 1
    ensures avg >= 0.0 && x >= 0.0 ==> r >= 0.0
  {
    var p := period as real;
    assert avg >= 0.0 && x >= 0.0 ==> (avg * (p - 1.0) + x) / p >= 0.0 by {
      if avg >= 0.0 && x >= 0.0 {
        NonNegativeProduct(avg, p - 1.0);
        QuotientNonNegative(avg * (p - 1.0) + x, p);
      }
    }
    (avg * (p - 1.0) + x) / p
  }

  lemma NonNegativeProduct(a: real, b: real)
    requires a >= 0.0 && b >= 0.0
    ensures a * b >= 0.0
  {
  }

  lemma QuotientNonNegative(a: real, b: real)
    requires a >= 0.0 && b > 0.0
    ensures a / b >= 0.0
  {
  }

  lemma QuotientBounds(n: real, d: real)
    requires n > 0.0 && d >= 1.0
    ensures 0.0 < n / d <= n
  {
  }

  /** The average gain and loss after smoothing in the deltas `ds`. */
  function Smoothed(ds: seq<real>, up: real, down: real, period: nat): (r: (real, real))
    requires period >= 1
    ensures up >= 0.0 && down >= 0.0 ==> r.0 >= 0.0 && r.1 >= 0.0
  {
    if ds == [] then (up, down)
    else
      var prev := Smoothed(ds[..|ds| - 1], up, down, period);
      var d := ds[|ds| - 1];
      (Smooth(prev.0, Gain(d), period), Smooth(prev.1, Loss(d), period))
  }

  lemma SmoothedSnoc(ds: seq<real>, k: nat, up: real, down: real, period: nat)
    requires period >= 1 && k < |ds|
    ensures var prev := Smoothed(ds[..k], up, down, period);
            Smoothed(ds[..k + 1], up, down, period) ==
              (Smooth(prev.0, Gain(ds[k]), period), Smooth(prev.1, Loss(ds[k]), period))
  {
    assert ds[..k + 1][..k] == ds[..k];
  }

  /** RSI from the average gain and loss: 100 when there is no loss. */
  function RsiOf(up: real, down: real): (rsi: real)
    requires up >= 0.0 && down >= 0.0
    ensures 0.0 <= rsi <= 100.0
    ensures down == 0.0 ==> rsi == 100.0
  {
    if down == 0.0 then 100.0
    else
      QuotientNonNegative(up, down);
      QuotientBounds(100.0, 1.0 + up / down);
      100.0 - 100.0 / (1.0 + up / down)
  }

  /** A total over the seed window divided by its length. */
  function SeedAverage(total: real, period: nat): (avg: real)
    requires period >= 1
    ensures total >= 0.0 ==> avg >= 0.0
  {
    assert total >= 0.0 ==> total / period as real >= 0.0 by {
      if total >= 0.0 { QuotientNonNegative(total, period as real); }
    }
    total / period as real
  }

  /** `calculate_rsi`: 50 without enough prices; 100 when the seed window has
      no loss; otherwise the index after smoothing in the later deltas. The
      index always lies in [0, 100]. */
  function Rsi(prices: seq<real>, period: nat): (rsi: real)
    requires period >= 1
    ensures 0.0 <= rsi <= 100.0
    ensures |prices| < period + 1 ==> rsi == 50.0
  {
    if |prices| < period + 1 then 50.0
    else
      var ds := Deltas(prices);
      var up := SeedAverage(PositiveSum(ds[..period]), period);
      var down := SeedAverage(-NegativeSum(ds[..period]), period);
      if down == 0.0 then 100.0
      else
        var avg := Smoothed(ds[period..], up, down, period);
        RsiOf(avg.0, avg.1)
  }

  /** When the first `period` deltas hold no loss the index is 100, whatever
      prices follow. */
  lemma RsiIgnoresLaterPricesAfterLosslessSeed(prices: seq<real>, more: seq<real>, period: nat)
    requires period >= 1 && |prices| == period + 1
    requires forall i, j :: 0 <= i <= j <= period ==> prices[i] <= prices[j]
    ensures Rsi(prices + more, period) == 100.0
  {
    assert |prices + more| >= period + 1;
    var all := prices + more;
    var ds := Deltas(all);
    assert forall i :: 0 <= i < period ==> ds[..period][i] >= 0.0 by {
      forall i | 0 <= i < period ensures ds[..period][i] >= 0.0 {
        assert all[i] == prices[i] && all[i + 1] == prices[i + 1];
      }
    }
    NoNegatives(ds[..period]);
    assert SeedAverage(-NegativeSum(ds[..period]), period) == 0.0;
  }

  lemma {:induction false} NoNegatives(ds: seq<real>)
    requires forall i :: 0 <= i < |ds| ==> ds[i] >= 0.0
    ensures NegativeSum(ds) == 0.0
  {
    if ds != [] {
      NoNegatives(ds[..|ds| - 1]);
    }
  }

  /** `calculate_rsi` as written: the seed averages, then the loop over the
      later deltas. */
  method CalculateRsi(prices: seq<real>, period: nat) returns (rsi: real)
    requires period >= 1
    ensures rsi == Rsi(prices, period)
  {
    if |prices| < period + 1 {
      return 50.0;
    }
    var deltas := Deltas(prices);
    var seed := deltas[..period];
    var up := SeedAverage(PositiveSum(seed), period);
    var down := SeedAverage(-NegativeSum(seed), period);
    if down == 0.0 {
      return 100.0;
    }
    ghost var up0, down0 := up, down;
    ghost var rest := deltas[period..];
    rsi := RsiOf(up, down);
    for i := period to |deltas|
      invariant up == Smoothed(rest[..i - period], up0, down0, period).0
      invariant down == Smoothed(rest[..i - period], up0, down0, period).1
      invariant up >= 0.0 && down >= 0.0
      invariant rsi == RsiOf(up, down)
    {
      SmoothedSnoc(rest, i - period, up0, down0, period);
      var delta := deltas[i];
      assert delta == rest[i - period];
      var gain := if delta > 0.0 then delta else 0.0;
      var loss := if delta < 0.0 then -delta else 0.0;
      assert gain == Gain(rest[i - period]) && loss == Loss(rest[i - period]);
      up := Smooth(up, gain, period);
      down := Smooth(down, loss, period);
      rsi := RsiOf(up, down);
    }
    assert rest[..|deltas| - period] == rest;
  }

  // ---- EMA and MACD ----

  /** The smoothing factor 2 / (span + 1). */
  function Alpha(span: nat): (a: real)
    requires span >= 1
    ensures 0.0 < a <= 1.0
  {
    2.0 / (span as real + 1.0)
  }

  /** One step of the average: the new point weighted by `alpha`, the previous
      average by `1 - alpha`. */
  function EmaStep(alpha: real, x: real, prev: real): real {
    alpha * x + (1.0 - alpha) * prev
  }

  /** The exponential moving average series of `data`, starting from the first
      point. */
  function Ema(data: seq<real>, span: nat): (ema: seq<real>)
    requires span >= 1 && |data| >= 1
    ensures |ema| == |data| && ema[0] == data[0]
  {
    if |data| == 1 then [data[0]]
    else
      var prev := Ema(data[..|data| - 1], span);
      prev + [EmaStep(Alpha(span), data[|data| - 1], prev[|prev| - 1])]
  }

  lemma Between(a: real, x: real, e: real, lo: real, hi: real)
    requires 0.0 < a <= 1.0 && lo <= x <= hi && lo <= e <= hi
    ensures lo <= a * x + (1.0 - a) * e <= hi
  {
    var m := a * x + (1.0 - a) * e;
    NonNegativeProduct(a, x - lo);
    NonNegativeProduct(1.0 - a, e - lo);
    assert m - lo == a * (x - lo) + (1.0 - a) * (e - lo);
    NonNegativeProduct(a, hi - x);
    NonNegativeProduct(1.0 - a, hi - e);
    assert hi - m == a * (hi - x) + (1.0 - a) * (hi - e);
  }

  /** Every average lies between the smallest and the largest data point. */
  lemma {:induction false} EmaWithinRange(data: seq<real>, span: nat, lo: real, hi: real)
    requires span >= 1 && |data| >= 1
    requires forall i :: 0 <= i < |data| ==> lo <= data[i] <= hi
    ensures forall i :: 0 <= i < |data| ==> lo <= Ema(data, span)[i] <= hi
  {
    if |data| > 1 {
      var n := |data| - 1;
      var prev := Ema(data[..n], span);
      var ema := Ema(data, span);
      EmaWithinRange(data[..n], span, lo, hi);
      Between(Alpha(span), data[n], prev[n - 1], lo, hi);
      assert ema[n] == EmaStep(Alpha(span), data[n], prev[n - 1]);
      assert ema == prev + [ema[n]];
      forall i | 0 <= i < |data| ensures lo <= ema[i] <= hi {
        if i < n {
          assert ema[i] == prev[i];
        }
      }
    }
  }

  /** The average of a constant series is that constant. */
  lemma {:induction false} EmaOfConstant(data: seq<real>, span: nat, c: real)
    requires span >= 1 && |data| >= 1
    requires forall i :: 0 <= i < |data| ==> data[i] == c
    ensures forall i :: 0 <= i < |data| ==> Ema(data, span)[i] == c
  {
    EmaWithinRange(data, span, c, c);
  }

  /** `calculate_ema`: one append per further data point. */
  method CalculateEma(data: seq<real>, span: nat) returns (ema: seq<real>)
    requires span >= 1 && |data| >= 1
    ensures ema == Ema(data, span)
  {
    var alpha := 2.0 / (span as real + 1.0);
    ema := [data[0]];
    for k := 1 to |data|
      invariant ema == Ema(data[..k], span)
    {
      assert data[..k + 1][..k] == data[..k];
      var next := EmaStep(alpha, data[k], ema[|ema| - 1]);
      ema := ema + [next];
    }
    assert data[..|data|] == data;
  }

  /** The MACD line: the fast average minus the slow one, point by point. */
  function MacdLine(fastEma: seq<real>, slowEma: seq<real>): (line: seq<real>)
    requires |fastEma| == |slowEma|
    ensures |line| == |fastEma|
    ensures forall i :: 0 <= i < |line| ==> line[i] == fastEma[i] - slowEma[i]
  {
    seq(|fastEma|, i requires 0 <= i < |fastEma| => fastEma[i] - slowEma[i])
  }

  datatype Macd = Macd(macd: real, signal: real, hist: real)

  /** `calculate_macd`: zeros without enough prices; otherwise the last MACD
      value, the last value of its signal average, and their difference. */
  function MacdOf(prices: seq<real>, fast: nat, slow: nat, signal: nat): Macd
    requires fast >= 1 && slow >= 1 && signal >= 1
  {
    if |prices| < slow + signal then Macd(0.0, 0.0, 0.0)
    else
      var line := MacdLine(Ema(prices, fast), Ema(prices, slow));
      var m := line[|line| - 1];
      var s := Ema(line, signal)[|line| - 1];
      Macd(m, s, m - s)
  }

  /** The second guard of `calculate_macd` (fewer MACD points than the signal
      span) can never fire: past the first guard the line is long enough. */
  lemma MacdSecondGuardUnreachable(prices: seq<real>, fast: nat, slow: nat, signal: nat)
    requires fast >= 1 && slow >= 1 && signal >= 1 && |prices| >= slow + signal
    ensures |MacdLine(Ema(prices, fast), Ema(prices, slow))| >= signal
  {
  }

  /** Flat prices give a zero MACD, signal and histogram. */
  lemma FlatPricesZeroMacd(prices: seq<real>, fast: nat, slow: nat, signal: nat, c: real)
    requires fast >= 1 && slow >= 1 && signal >= 1
    requires forall i :: 0 <= i < |prices| ==> prices[i] == c
    ensures MacdOf(prices, fast, slow, signal) == Macd(0.0, 0.0, 0.0)
  {
    if |prices| >= slow + signal {
      EmaOfConstant(prices, fast, c);
      EmaOfConstant(prices, slow, c);
      var line := MacdLine(Ema(prices, fast), Ema(prices, slow));
      EmaOfConstant(line, signal, 0.0);
    }
  }

  /** Fewer prices than the slow span plus the signal span give zeros. */
  lemma ShortPricesZeroMacd(prices: seq<real>, fast: nat, slow: nat, signal: nat)
    requires fast >= 1 && slow >= 1 && signal >= 1 && |prices| < slow + signal
    ensures MacdOf(prices, fast, slow, signal) == Macd(0.0, 0.0, 0.0)
  {
  }

  /** The signal value lies within the range of the MACD line. */
  lemma SignalWithinMacdRange(prices: seq<real>, fast: nat, slow: nat, signal: nat, lo: real, hi: real)
    requires fast >= 1 && slow >= 1 && signal >= 1 && |prices| >= slow + signal
    requires forall i :: 0 <= i < |prices| ==>
               lo <= MacdLine(Ema(prices, fast), Ema(prices, slow))[i] <= hi
    ensures lo <= MacdOf(prices, fast, slow, signal).signal <= hi
  {
    var line := MacdLine(Ema(prices, fast), Ema(prices, slow));
    EmaWithinRange(line, signal, lo, hi);
  }

  /** `calculate_macd` as written, with its loops. */
  method CalculateMacd(prices: seq<real>, fast: nat, slow: nat, signal: nat) returns (r: Macd)
    requires fast >= 1 && slow >= 1 && signal >= 1
    ensures r == MacdOf(prices, fast, slow, signal)
  {
    if |prices| < slow + signal {
      return Macd(0.0, 0.0, 0.0);
    }
    var emaFast := CalculateEma(prices, fast);
    var emaSlow := CalculateEma(prices, slow);
    var line: seq<real> := [];
    for i := 0 to |emaFast|
      invariant line == MacdLine(emaFast[..i], emaSlow[..i])
    {
      line := line + [emaFast[i] - emaSlow[i]];
    }
    assert emaFast[..|emaFast|] == emaFast && emaSlow[..|emaSlow|] == emaSlow;
    var signalSeries := CalculateEma(line, signal);
    var m := line[|line| - 1];
    var s := signalSeries[|signalSeries| - 1];
    r := Macd(m, s, m - s);
  }

  // ---- Bollinger bands ----

  datatype Bands = Bands(upper: real, middle: real, lower: real)

  /** `calculate_bollinger_bands`: zeros without enough prices; otherwise the
      mean of the last `period` prices, plus and minus `numStd` population
      standard deviations. */
  ghost function BollingerBands(prices: seq<real>, period: nat, numStd: real): Bands
    requires period >= 1
  {
    if |prices| < period then Bands(0.0, 0.0, 0.0)
    else
      var recent := prices[|prices| - period..];
      var sma := Sum(recent) / period as real;
      var std := Sqrt(SquaredDeviations(recent, sma) / period as real);
      Bands(sma + std * numStd, sma, sma - std * numStd)
  }

  /** The bands are symmetric around the middle, at `numStd` standard
      deviations, and ordered when `numStd` is not negative. */
  lemma BandsSymmetric(prices: seq<real>, period: nat, numStd: real)
    requires period >= 1 && |prices| >= period
    ensures var b := BollingerBands(prices, period, numStd);
            var recent := prices[|prices| - period..];
            b.middle == Mean(recent) &&
            b.upper - b.middle == b.middle - b.lower ==
              numStd * Sqrt(SquaredDeviations(recent, Mean(recent)) / period as real)
  {
  }

  lemma BandsOrdered(prices: seq<real>, period: nat, numStd: real)
    requires period >= 1 && numStd >= 0.0
    ensures var b := BollingerBands(prices, period, numStd);
            b.lower <= b.middle <= b.upper
  {
    if |prices| >= period {
      var recent := prices[|prices| - period..];
      var sma := Sum(recent) / period as real;
      var std := Sqrt(SquaredDeviations(recent, sma) / period as real);
      NonNegativeProduct(std, numStd);
    }
  }

  /** Fewer prices than the window give three zero bands. */
  lemma ShortPricesZeroBands(prices: seq<real>, period: nat, numStd: real)
    requires period >= 1 && |prices| < period
    ensures BollingerBands(prices, period, numStd) == Bands(0.0, 0.0, 0.0)
  {
  }

  /** Flat prices collapse the three bands onto the price. */
  lemma FlatPricesCollapseBands(prices: seq<real>, period: nat, numStd: real, c: real)
    requires period >= 1 && |prices| >= period
    requires forall i :: 0 <= i < |prices| ==> prices[i] == c
    ensures BollingerBands(prices, period, numStd) == Bands(c, c, c)
  {
    var recent := prices[|prices| - period..];
    MeanOfConstant(recent, c);
    SquaredDeviationsZero(recent, c);
  }
}
