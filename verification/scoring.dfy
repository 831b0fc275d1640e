/** The heuristic score of a snapshot against its predecessor, and the
    take-profit / stop-loss levels derived from an entry price. */
module Scoring {
  import opened Types
  import opened Rounding

  /** `k` points when the condition holds. */
  function Points(earned: bool, k: int): int {
    if earned then k else 0
  }

  /** +2 for a rise of more than 1%, a further +4 for more than 3%. */
  function PricePoints(now: Snapshot, prev: Snapshot): int {
    Points(now.last > prev.last * 1.01, 2) + Points(now.last > prev.last * 1.03, 4)
  }

  /** +3 for quote volume above 1.5 times the previous one, a further +5 above 2.5 times. */
  function VolumePoints(now: Snapshot, prev: Snapshot): int {
    Points(now.volIdr > prev.volIdr * 1.5, 3) + Points(now.volIdr > prev.volIdr * 2.5, 5)
  }

  /** +3 when buy volume exceeds 1.4 times sell volume, a further +5 beyond 2 times. */
  function BuySellPoints(now: Snapshot): int {
    Points(now.volBuy > now.volSell * 1.4, 3) + Points(now.volBuy > now.volSell * 2.0, 5)
  }

  /** +2 for a price below 200. */
  function LowPricePoints(now: Snapshot): int {
    Points(now.last < 200.0, 2)
  }

  /** `score_signal`: the sum of the seven independent point awards. */
  function Score(now: Snapshot, prev: Snapshot): (s: int)
    ensures 0 <= s <= 24
  {
    PricePoints(now, prev) + VolumePoints(now, prev) + BuySellPoints(now) + LowPricePoints(now)
  }

  /** The tiers are nested: when the reference quantity is non-negative the
      larger award is only ever earned together with the smaller one, so each
      pair of awards is worth 0, the small award, or both. */
  lemma ScoreTiersNested(now: Snapshot, prev: Snapshot)
    ensures prev.last >= 0.0 ==> PricePoints(now, prev) in {0, 2, 6}
    ensures prev.volIdr >= 0.0 ==> VolumePoints(now, prev) in {0, 3, 8}
    ensures now.volSell >= 0.0 ==> BuySellPoints(now) in {0, 3, 8}
    ensures LowPricePoints(now) in {0, 2}
  {
  }

  /** With everything else fixed, more quote volume never lowers the score,
      and neither does more buy volume. */
  lemma ScoreMonotoneInVolume(now: Snapshot, more: Snapshot, prev: Snapshot)
    requires more.last == now.last && more.volSell == now.volSell
    requires more.volIdr >= now.volIdr && more.volBuy >= now.volBuy
    ensures Score(now, prev) <= Score(more, prev)
  {
  }

  /** The take-profit and stop-loss pair returned by `calc_levels`. */
  datatype Levels = Levels(tp: real, sl: real)

  /** `round(entry * f, 6)` is `entry * f` itself when `f` has at most six decimals. */
  lemma Round6Exact(entry: int, f: real, micros: int)
    requires f * 1000000.0 == micros as real
    ensures Round6(entry as real * f) == entry as real * f
  {
    var x := entry as real * f;
    var k := entry * micros;
    assert x * 1000000.0 == entry as real * (f * 1000000.0);
    assert entry as real * micros as real == k as real;
    assert x * 1000000.0 == k as real;
    assert (k as real).Floor == k;
  }

  /** `round(entry * f, 6)` for a factor `f` with at most six decimals (`micros` = f * 10^6). */
  function ScaleRounded(entry: int, f: real, micros: int): (v: real)
    requires f * 1000000.0 == micros as real
    ensures v == entry as real * f
  {
    Round6Exact(entry, f, micros);
    Round6(entry as real * f)
  }

  /** `calc_levels(entry, mode)`: the 'scalper' set takes 3.5% profit and
      0.8% loss, the 'ghost' set 10% and 1.3%, every other mode 6% and 1%.
      Entries are integers, so the rounding to six decimals is exact. */
  function CalcLevels(entry: int, mode: string): (r: Levels)
    ensures mode == "scalper" ==> r == Levels(entry as real * 1.035, entry as real * 0.992)
    ensures mode == "ghost" ==> r == Levels(entry as real * 1.10, entry as real * 0.987)
    ensures mode != "scalper" && mode != "ghost" ==>
              r == Levels(entry as real * 1.06, entry as real * 0.99)
  {
    if mode == "scalper" then
      Levels(ScaleRounded(entry, 1.035, 1035000), ScaleRounded(entry, 0.992, 992000))
    else if mode == "ghost" then
      Levels(ScaleRounded(entry, 1.10, 1100000), ScaleRounded(entry, 0.987, 987000))
    else
      Levels(ScaleRounded(entry, 1.06, 1060000), ScaleRounded(entry, 0.99, 990000))
  }

  /** Whatever the mode, a positive entry lies strictly between stop-loss and
      take-profit, a zero entry gives zero levels, and a negative entry
      reverses the bracket. */
  lemma LevelsBracketEntry(entry: int, mode: string)
    ensures var lv := CalcLevels(entry, mode);
            && (entry > 0 ==> lv.sl < entry as real < lv.tp)
            && (entry == 0 ==> lv.tp == 0.0 && lv.sl == 0.0)
            && (entry < 0 ==> lv.tp < entry as real < lv.sl)
  {
  }
}
