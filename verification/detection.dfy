/** The six detection modules. Each is a pure function of the current
    snapshot and a reference (the previous snapshot, or for breakout the
    whole history window) that either proposes a candidate or stays silent. */
module Detection {
  import opened Options
  import opened Types
  import opened Rounding
  import opened Scoring

  /** A candidate whose levels come from the named level set. */
  function Propose(mode: Mode, entry: int, levelSet: string, score: int): Candidate {
    var lv := CalcLevels(entry, levelSet);
    Candidate(mode, entry, lv.tp, lv.sl, score)
  }

  /** Price up more than 0.8% on volume up more than 25%; entry 0.1% below the price. */
  function DetectScalper(now: Snapshot, prev: Snapshot): (r: Option<Candidate>)
    ensures r.Some? <==> now.last > prev.last * 1.008 && now.volIdr > prev.volIdr * 1.25
    ensures r.Some? ==> r.value.mode == Scalper && r.value.score == Score(now, prev)
    ensures r.Some? ==> now.last * 0.999 - 0.5 <= r.value.entry as real <= now.last * 0.999 + 0.5
    ensures r.Some? ==> r.value.tp == r.value.entry as real * 1.035
                        && r.value.sl == r.value.entry as real * 0.992
  {
    if now.last > prev.last * 1.008 && now.volIdr > prev.volIdr * 1.25 then
      Some(Propose(Scalper, RoundHalfEven(now.last * 0.999), "scalper", Score(now, prev)))
    else
      None
  }

  /** Price up more than 3.5% on volume up more than 80%; entry 0.5% below the price. */
  function DetectMicroPump(now: Snapshot, prev: Snapshot): (r: Option<Candidate>)
    ensures r.Some? <==> now.last > prev.last * 1.035 && now.volIdr > prev.volIdr * 1.8
    ensures r.Some? ==> r.value.mode == MicroPump && r.value.score == Score(now, prev)
    ensures r.Some? ==> now.last * 0.995 - 0.5 <= r.value.entry as real <= now.last * 0.995 + 0.5
    ensures r.Some? ==> r.value.tp == r.value.entry as real * 1.06
                        && r.value.sl == r.value.entry as real * 0.99
  {
    if now.last > prev.last * 1.035 && now.volIdr > prev.volIdr * 1.8 then
      Some(Propose(MicroPump, RoundHalfEven(now.last * 0.995), "normal", Score(now, prev)))
    else
      None
  }

  /** The last prices of a history window. */
  function Prices(hist: seq<Snapshot>): (ps: seq<real>)
    ensures |ps| == |hist|
    ensures forall i :: 0 <= i < |hist| ==> ps[i] == hist[i].last
  {
    if |hist| == 0 then [] else Prices(hist[..|hist| - 1]) + [hist[|hist| - 1].last]
  }

  function Sum(xs: seq<real>): real {
    if |xs| == 0 then 0.0 else Sum(xs[..|xs| - 1]) + xs[|xs| - 1]
  }

  /** Sum of squared deviations from `mean`. */
  function SquaredDeviations(xs: seq<real>, mean: real): real {
    if |xs| == 0 then 0.0
    else SquaredDeviations(xs[..|xs| - 1], mean) + (xs[|xs| - 1] - mean) * (xs[|xs| - 1] - mean)
  }

  /** `statistics.pvariance`: mean squared deviation from the mean. */
  function PVariance(xs: seq<real>): real
    requires |xs| > 0
  {
    SquaredDeviations(xs, Sum(xs) / |xs| as real) / |xs| as real
  }

  /** `statistics.pstdev(xs) < bound`. The population standard deviation is
      the non-negative square root of the population variance, so it is below
      `bound` exactly when `bound` is positive and the variance is below
      `bound` squared; no square root is needed. */
  predicate StdDevBelow(xs: seq<real>, bound: real)
    requires |xs| > 0
  {
    bound > 0.0 && PVariance(xs) < bound * bound
  }

  /** At least 10 snapshots, prices flat (deviation under 0.6% of the last
      price) and the current price more than 2% above the last one; scored
      against the second-to-last snapshot. */
  function DetectBreakout(now: Snapshot, hist: seq<Snapshot>): (r: Option<Candidate>)
    ensures |hist| < 10 ==> r.None?
    ensures r.Some? <==> && |hist| >= 10
                         && StdDevBelow(Prices(hist), hist[|hist| - 1].last * 0.006)
                         && now.last > hist[|hist| - 1].last * 1.02
    ensures r.Some? ==> hist[|hist| - 1].last > 0.0
    ensures r.Some? ==> r.value.mode == Breakout && r.value.score == Score(now, hist[|hist| - 2])
    ensures r.Some? ==> now.last - 0.5 <= r.value.entry as real <= now.last + 0.5
    ensures r.Some? ==> r.value.tp == r.value.entry as real * 1.06
                        && r.value.sl == r.value.entry as real * 0.99
  {
    if |hist| < 10 then None
    else
      var prices := Prices(hist);
      var top := prices[|prices| - 1];
      if StdDevBelow(prices, top * 0.006) && now.last > top * 1.02 then
        Some(Propose(Breakout, RoundHalfEven(now.last), "normal", Score(now, hist[|hist| - 2])))
      else
        None
  }

  /** Buy volume more than 1.7 times sell volume on quote volume up more than 30%. */
  function DetectAccumulation(now: Snapshot, prev: Snapshot): (r: Option<Candidate>)
    ensures r.Some? <==> now.volBuy > now.volSell * 1.7 && now.volIdr > prev.volIdr * 1.3
    ensures r.Some? ==> r.value.mode == Accumulation && r.value.score == Score(now, prev)
    ensures r.Some? ==> now.last - 0.5 <= r.value.entry as real <= now.last + 0.5
    ensures r.Some? ==> r.value.tp == r.value.entry as real * 1.10
                        && r.value.sl == r.value.entry as real * 0.987
  {
    if now.volBuy > now.volSell * 1.7 && now.volIdr > prev.volIdr * 1.3 then
      Some(Propose(Accumulation, RoundHalfEven(now.last), "ghost", Score(now, prev)))
    else
      None
  }

  /** Previous price more than 7% above the current one on volume up more than 40%. */
  function DetectRebound(now: Snapshot, prev: Snapshot): (r: Option<Candidate>)
    ensures r.Some? <==> prev.last > now.last * 1.07 && now.volIdr > prev.volIdr * 1.4
    ensures r.Some? ==> r.value.mode == Rebound && r.value.score == Score(now, prev)
    ensures r.Some? ==> now.last - 0.5 <= r.value.entry as real <= now.last + 0.5
    ensures r.Some? ==> r.value.tp == r.value.entry as real * 1.06
                        && r.value.sl == r.value.entry as real * 0.99
  {
    if prev.last > now.last * 1.07 && now.volIdr > prev.volIdr * 1.4 then
      Some(Propose(Rebound, RoundHalfEven(now.last), "normal", Score(now, prev)))
    else
      None
  }

  /** Price below 200 on volume more than tripled. */
  function DetectLowcap(now: Snapshot, prev: Snapshot): (r: Option<Candidate>)
    ensures r.Some? <==> now.last < 200.0 && now.volIdr > prev.volIdr * 3.0
    ensures r.Some? ==> r.value.mode == Lowcap && r.value.score == Score(now, prev)
    ensures r.Some? ==> now.last - 0.5 <= r.value.entry as real <= now.last + 0.5
    ensures r.Some? ==> r.value.tp == r.value.entry as real * 1.10
                        && r.value.sl == r.value.entry as real * 0.987
  {
    if now.last < 200.0 && now.volIdr > prev.volIdr * 3.0 then
      Some(Propose(Lowcap, RoundHalfEven(now.last), "ghost", Score(now, prev)))
    else
      None
  }

  /** The module table: breakout reads the whole window, every other module
      only the previous snapshot. */
  function Detect(m: Mode, now: Snapshot, prev: Snapshot, hist: seq<Snapshot>): (r: Option<Candidate>)
    ensures r.Some? ==> r.value.mode == m
  {
    match m
    case Scalper => DetectScalper(now, prev)
    case MicroPump => DetectMicroPump(now, prev)
    case Breakout => DetectBreakout(now, hist)
    case Accumulation => DetectAccumulation(now, prev)
    case Rebound => DetectRebound(now, prev)
    case Lowcap => DetectLowcap(now, prev)
  }

  /** For non-negative previous price and volume, a micro pump is always also a scalper move. */
  lemma MicroPumpImpliesScalper(now: Snapshot, prev: Snapshot)
    requires prev.last >= 0.0 && prev.volIdr >= 0.0
    ensures DetectMicroPump(now, prev).Some? ==> DetectScalper(now, prev).Some?
  {
  }

  /** For a non-negative current price, a scalper move and a rebound exclude each other:
      one needs the price up by 0.8%, the other down by more than 6.5%. */
  lemma ScalperExcludesRebound(now: Snapshot, prev: Snapshot)
    requires now.last >= 0.0
    ensures !(DetectScalper(now, prev).Some? && DetectRebound(now, prev).Some?)
  {
  }

  /** Breakout compares the current price with the window's last price. When
      the window already ends with the current snapshot it never fires, for
      any price: a positive price cannot exceed 1.02 times itself, and a
      non-positive one makes the deviation bound non-positive. */
  lemma BreakoutSilentOnOwnWindow(now: Snapshot, hist: seq<Snapshot>)
    requires |hist| > 0 && hist[|hist| - 1] == now
    ensures DetectBreakout(now, hist).None?
  {
    if |hist| >= 10 {
      assert Prices(hist)[|hist| - 1] == now.last;
    }
  }
}
