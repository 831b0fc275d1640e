/** The scanner's configuration constants and the records that flow through one scan cycle. */
module Types {

  /** Minimum quote volume (in IDR) for a ticker to be admitted into history. */
  const MinVolumeIdr: real := 1000000.0
  /** Capacity of each pair's history window. */
  const HistoryLen: nat := 12
  /** Capacity of the most-recent-first signal store. */
  const MaxSignalsStored: nat := 20
  /** A selected candidate is stored only when its priority reaches this value. */
  const AlertThreshold: real := 6.0
  /** Weight of the order-book imbalance magnitude in a candidate's priority. */
  const ImbalanceWeight: real := 0.15

  /** One normalized ticker observation: last price, quote volume and the
      estimated buy and sell volumes. */
  datatype Snapshot = Snapshot(last: real, volIdr: real, volBuy: real, volSell: real)

  /** The six detection modules, in the order the scanner evaluates them. */
  datatype Mode = Scalper | MicroPump | Breakout | Accumulation | Rebound | Lowcap

  /** What a detection module proposes: an integer entry price, take-profit
      and stop-loss levels, and the heuristic score. */
  datatype Candidate = Candidate(mode: Mode, entry: int, tp: real, sl: real, score: int)

  /** An entry of the signal store; `imbalance` is the order-book figure the
      source stores under the key "ghost". */
  datatype Signal = Signal(mode: Mode, pair: string, entry: int, tp: real, sl: real,
                           priority: real, imbalance: real)
}
