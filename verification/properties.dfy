/** Facts about one pair's turn of the scanner loop as the loop is written:
    how the window moves, which modules can fire there, and what reaches the store. */
module EngineProperties {
  import opened Options
  import opened Types
  import opened Rounding
  import opened Scoring
  import opened OrderBookProbe
  import opened Detection
  import opened Scanner
  import Bounded

  /** The window of an admitted pair grows by the new snapshot and, once it
      holds 12, loses exactly its oldest entry; every other pair's window is
      untouched, and a filtered-out ticker changes nothing at all. */
  lemma ScanPairHistory(e: Engine, pair: string, info: RawTicker, probe: Probe, p: string)
    requires |HistoryOf(e, pair)| <= HistoryLen
    ensures !QuotedInIdr(pair) || info.volIdr.GetOr(0.0) < MinVolumeIdr ==> ScanPair(e, pair, info, probe) == e
    ensures p != pair ==> HistoryOf(ScanPair(e, pair, info, probe), p) == HistoryOf(e, p)
    ensures Admit(pair, info).Some? && |HistoryOf(e, pair)| < HistoryLen ==>
              HistoryOf(ScanPair(e, pair, info, probe), pair) == HistoryOf(e, pair) + [Normalize(info)]
    ensures Admit(pair, info).Some? && |HistoryOf(e, pair)| == HistoryLen ==>
              HistoryOf(ScanPair(e, pair, info, probe), pair) == HistoryOf(e, pair)[1..] + [Normalize(info)]
  {
    var r := ScanPair(e, pair, info, probe);
    if p != pair {
      assert p in r.history <==> p in r.history - {pair};
      assert p in e.history <==> p in e.history - {pair};
    }
  }

  /** Because the new snapshot is appended before the modules run, the
      breakout module sees a window ending in the current snapshot and never
      fires from the scan loop. */
  lemma BreakoutNeverFiresInScan(pair: string, now: Snapshot, prev: Snapshot, before: seq<Snapshot>, probe: Probe)
    ensures Breakout !in ModesOf(Candidates(pair, now, prev, Bounded.Append(before, now, HistoryLen), probe))
  {
    BreakoutSilentOnOwnWindow(now, Bounded.Append(before, now, HistoryLen));
  }

  /** Hence no breakout signal is ever stored. */
  lemma NoBreakoutSignal(e: Engine, pair: string, now: Snapshot, probe: Probe)
    ensures PairSignal(e, pair, now, probe).Some? ==> PairSignal(e, pair, now, probe).value.mode != Breakout
  {
    var before := HistoryOf(e, pair);
    if |before| > 0 {
      var window := Bounded.Append(before, now, HistoryLen);
      var cs := Candidates(pair, now, before[|before| - 1], window, probe);
      BreakoutNeverFiresInScan(pair, now, before[|before| - 1], before, probe);
      assert PairSignal(e, pair, now, probe) == Select(cs);
    }
  }

  /** A ticker without buy and sell volume gets an even split of its quote
      volume, so the accumulation module never fires for it and the two
      buy/sell score awards are never earned. */
  lemma DefaultSplitIsInert(pair: string, info: RawTicker, prev: Snapshot)
    requires info.volBuy.None? && info.volSell.None?
    requires Admit(pair, info).Some?
    ensures DetectAccumulation(Admit(pair, info).value, prev).None?
    ensures BuySellPoints(Admit(pair, info).value) == 0
  {
  }

  /** A snapshot stored while the store is full pushes out exactly the oldest signal. */
  lemma FullStoreEvictsOldest(e: Engine, pair: string, info: RawTicker, probe: Probe)
    requires |e.store| == MaxSignalsStored
    ensures var r := ScanPair(e, pair, info, probe);
            r.store != e.store ==> |r.store| == MaxSignalsStored && r.store[1..] == e.store[..MaxSignalsStored - 1]
  {
    ScanPairStoresAtMostOne(e, pair, info, probe);
  }

  /** A fetch that yields an empty book leaves the priority equal to the score. */
  lemma EmptyBookAddsNothing(score: int)
    ensures Priority(score, Imbalance(Some(OrderBook([], [])))) == score as real
  {
  }

  /** Two consecutive snapshots of a pair priced around 100: price up 1% on
      30% more volume with buy volume more than twice sell volume. The
      scalper fires with entry 101 and levels 104.535 / 100.192; the score
      is 10 (buy/sell 3 + 5, low price 2), since a rise of exactly 1% does
      not earn the price award. */
  lemma ScalperExample()
    ensures DetectScalper(Snapshot(101.0, 1300000.0, 700000.0, 300000.0),
                          Snapshot(100.0, 1000000.0, 600000.0, 400000.0))
            == Some(Candidate(Scalper, 101, 104.535, 100.192, 10))
  {
    RoundHalfEvenUnique(101.0 * 0.999, 101);
  }
}
