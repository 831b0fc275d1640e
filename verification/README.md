# Super-Scanner detection engine, modelled in Dafny

This project models the detection-and-alerting engine of the Indodax
"Super-Scanner" backend (`backend/server.py`). One scan cycle reads a map
from trading pair to raw ticker. For each pair it then does the following:

- drops pairs not quoted in rupiah and pairs whose quote volume is below 1,000,000;
- normalizes the ticker into a snapshot (last price, quote volume, buy and sell volume);
- appends the snapshot to the pair's history window, a deque capped at 12;
- runs the six detection modules (scalper, micro pump, breakout, accumulation, rebound, lowcap);
- probes the order book once for every module that fired;
- ranks the candidates by `score + 0.15 * |imbalance|`;
- keeps the first candidate with the highest priority;
- pushes it onto the front of the 20-entry signal store when its priority is at least 6.

The model is purely functional. An `Engine` value holds the per-pair windows
(`map<string, seq<Snapshot>>`) and the store (`seq<Signal>`). `Scanner.ScanPair`
is one pair's turn, and `Scanner.ScanCycle` folds it over a response.

Modules, following the source's structure:

- `Options` (options.dfy): optional values.
- `Rounding` (rounding.dfy): Python's `round(x)` and `round(x, d)` on exact reals, ties to even.
- `Bounded` (bounded.dfy): `deque(maxlen=...)`'s `append` and `appendleft`.
- `Types` (types.dfy): the configuration constants, `Snapshot`, `Mode`, `Candidate` and `Signal`.
- `Scoring` (scoring.dfy): `score_signal` and `calc_levels`.
- `OrderBookProbe` (imbalance.dfy): the arithmetic of `detect_ghost_behaviour`.
- `Detection` (detection.dfy): the six modules and the module table.
- `Scanner` (scanner.dfy): normalization, admission, candidate gathering, selection, the per-pair step, the cycle and the engine invariant.
- `EngineProperties` (properties.dfy): facts about the loop as written.

Facts about the code that the proofs bring out:

- The scan loop appends the new snapshot before the modules run. The breakout
  module therefore compares the current price with itself (`prices[-1]` is
  `now['last']`) and never fires from the loop, whatever the prices are. A
  positive price cannot exceed 1.02 times itself, and a non-positive one makes
  the deviation bound non-positive. See `EngineProperties.BreakoutNeverFiresInScan`
  and `EngineProperties.NoBreakoutSignal`.
- A ticker without `vol_buy` and `vol_sell` gets an even split of its quote
  volume. For such a ticker the accumulation module and both buy/sell score
  awards are unreachable (`EngineProperties.DefaultSplitIsInert`).
- The imbalance is rounded to one decimal, so only a weak sign property holds.
  A strictly positive result implies more buy than sell depth, but a small
  excess of buy depth can round to 0 (`OrderBookProbe.ImbalanceSign`).
- Every entry passed to `calc_levels` is an integer. Rounding `entry * f` to six
  decimals is then exact, so take-profit and stop-loss are exactly
  `entry * f` (`Scoring.CalcLevels`).
- For two consecutive snapshots with price 100 → 101, quote volume 1.0M → 1.3M
  and buy/sell volume 700k/300k, the score is 10. A rise of exactly 1% does not
  earn the +2 price award (`EngineProperties.ScalperExample`).

`backend/server.py` has no per-pair cooldown, no news boost to the priority
(line 177 hard-codes `news = False`) and no outbound message channel, so the
model has none of them.

`pstdev(xs) < c` holds exactly when `c > 0` and the population variance
is below `c * c`, so the breakout test is stated without a square root (`Detection.StdDevBelow`).

## Model

| member | source | states |
|---|---|---|
| Rounding.RoundHalfEven | backend/server.py:84 | Python's `round(x)`: the result is within 1/2 of `x`, and on a tie it is the even neighbour |
| Rounding.RoundHalfEvenUnique | backend/server.py:84 | those two properties pin the rounded integer down uniquely |
| Rounding.Round6 | backend/server.py:73 | `round(x, 6)`: the result is within 5·10^-7 of `x`, and equals `x` when `x` already has at most six decimals |
| Rounding.Round1 | backend/server.py:140 | `round(x, 1)`: the result is within 0.05 of `x` |
| Rounding.Round1KeepsIntegerLowerBound | backend/server.py:196 | rounding to one decimal keeps a value at or above any integer it was at or above (a priority ≥ 6 is stored as ≥ 6) |
| Rounding.Round1KeepsIntegerUpperBound | backend/server.py:140 | rounding to one decimal keeps a value at or below any integer it was at or below |
| Bounded.Append | backend/server.py:29 | `deque(maxlen=cap).append`: below capacity the element is added at the end; at capacity exactly the oldest element is dropped; length never exceeds the capacity |
| Bounded.AppendLeft | backend/server.py:28 | `deque(maxlen=cap).appendleft`: the element becomes the head; at capacity exactly the last (oldest) element is dropped |
| Scoring.Score | backend/server.py:57-69 | the heuristic score is an integer between 0 and 24 |
| Scoring.ScoreTiersNested | backend/server.py:60-66 | with a non-negative reference, the +4 price award comes only with the +2 award, the +5 volume award only with the +3, and the +5 buy/sell award only with the +3 |
| Scoring.ScoreMonotoneInVolume | backend/server.py:62-65 | more quote volume or more buy volume, all else equal, never lowers the score, whatever the previous snapshot |
| Scoring.Round6Exact | backend/server.py:73-77 | rounding an integer multiple of a six-decimal factor to six decimals changes nothing |
| Scoring.ScaleRounded | backend/server.py:73-77 | rounding an integer entry times a six-decimal factor to six decimals yields the exact product |
| Scoring.CalcLevels | backend/server.py:71-78 | the 'scalper' set gives exactly ×1.035/×0.992, 'ghost' ×1.10/×0.987, and any other mode ×1.06/×0.99 |
| Scoring.LevelsBracketEntry | backend/server.py:71-78 | for every mode, a positive entry gives sl < entry < tp, entry 0 gives tp = sl = 0, and a negative entry reverses the bracket |
| Detection.DetectScalper | backend/server.py:81-87 | fires exactly on price > 1.008×prev and volume > 1.25×prev; entry within 1/2 of 0.999×price; scalper levels; score against prev |
| Detection.DetectMicroPump | backend/server.py:89-95 | fires exactly on price > 1.035×prev and volume > 1.8×prev; entry within 1/2 of 0.995×price; normal levels |
| Detection.Prices | backend/server.py:100 | the window's prices, one per snapshot, in order |
| Detection.DetectBreakout | backend/server.py:97-106 | silent with fewer than 10 snapshots; otherwise fires exactly when the window's price deviation is below 0.6% of its last price and the current price exceeds that price by more than 2%, which needs a positive last price; scored against the second-to-last snapshot; normal levels |
| Detection.DetectAccumulation | backend/server.py:108-114 | fires exactly on buy > 1.7×sell and volume > 1.3×prev; ghost levels |
| Detection.DetectRebound | backend/server.py:116-122 | fires exactly on prev price > 1.07×price and volume > 1.4×prev; normal levels |
| Detection.DetectLowcap | backend/server.py:124-130 | fires exactly on price < 200 and volume > 3×prev; ghost levels |
| Detection.Detect | backend/server.py:173 | the module table: breakout reads the window, the others the previous snapshot; a proposal always carries its module's mode |
| Detection.MicroPumpImpliesScalper | backend/server.py:83-91 | for non-negative previous price and volume, a micro pump is also a scalper move |
| Detection.ScalperExcludesRebound | backend/server.py:81-122 | for a non-negative price, scalper and rebound never fire together |
| Detection.BreakoutSilentOnOwnWindow | backend/server.py:97-106 | breakout never fires on a window whose last snapshot is the current one |
| OrderBookProbe.Top | backend/server.py:136-137 | `side[:8]`: the prefix of the side holding exactly its first min(8, length) levels |
| OrderBookProbe.QtySumNonNegative | backend/server.py:136-137 | non-negative quantities sum to a non-negative depth |
| OrderBookProbe.Imbalance | backend/server.py:132-141 | 0 when the fetch yields nothing or both depths are 0; otherwise within 0.05 of 100·(buy−sell)/(buy+sell) |
| OrderBookProbe.RatioBounded | backend/server.py:139 | for non-negative depths the ratio lies in [-100, 100] and is positive (negative) exactly when buy exceeds (falls short of) sell |
| OrderBookProbe.ImbalanceBounded | backend/server.py:132-141 | for non-negative quantities the rounded imbalance lies in [-100, 100] |
| OrderBookProbe.ImbalanceSign | backend/server.py:136-140 | for non-negative quantities a positive result means more buy depth, a negative one more sell depth, and equal depths give 0 |
| OrderBookProbe.ImbalanceIgnoresDeepLevels | backend/server.py:136-137 | levels beyond the eighth on either side do not change the imbalance; the other side may be of any depth |
| OrderBookProbe.TopIgnoresDeepLevels | backend/server.py:136-137 | levels appended below the eighth of a side leave `side[:8]` unchanged |
| Scanner.Normalize | backend/server.py:159-162 | a present field is taken as given; an absent price or quote volume reads as 0; an absent buy or sell volume, each on its own, reads as half the quote volume |
| Scanner.Admit | backend/server.py:157-163 | a ticker is admitted exactly when the pair ends in "idr" and its quote volume is at least 1,000,000 |
| Scanner.InitialValid | backend/server.py:28-29 | the empty engine satisfies the engine invariant |
| Scanner.Priority | backend/server.py:182-183 | priority is never below the score and equals it when the imbalance is 0 |
| Scanner.Rank | backend/server.py:147 | each mode's position in the evaluation order |
| Scanner.RankInverts | backend/server.py:147 | position and mode correspond one to one |
| Scanner.CandidatesFrom | backend/server.py:171-178 | every listed candidate is a fired module's proposal, with that module's probed imbalance and priority = score + 0.15·imbalance magnitude |
| Scanner.CandidatesFromOrdered | backend/server.py:172-178 | the candidates come out in strictly increasing module order |
| Scanner.CandidatesFromComplete | backend/server.py:172-178 | a module's position holds a candidate exactly when that module fired |
| Scanner.Candidates | backend/server.py:171-178 | a mode has a candidate exactly when its module fires; candidates are in module order and carry the probe's imbalance and the priority |
| Scanner.FirstMax | backend/server.py:185 | `max` picks an index of greatest priority with every earlier index strictly lower, that is, the first maximum |
| Scanner.ToSignal | backend/server.py:188-199 | the stored signal keeps the candidate's mode, pair, entry, take-profit, stop-loss and imbalance; its priority is within 0.05 of the candidate's and still reaches the threshold |
| Scanner.Select | backend/server.py:180-187 | a signal exists exactly when some candidate reaches 6; it is the first candidate of maximal priority, and its mode is one that fired |
| Scanner.PairSignal | backend/server.py:166-187 | no signal on a pair's first admission; otherwise a signal exactly when some module fires on (now, the previous snapshot, the window already holding now) with a probed priority ≥ 6; the signal names the pair and a module that fired |
| Scanner.SomeCandidateAlerts | backend/server.py:171-187 | over the complete list of probed candidates, one reaches 6 exactly when some module fires with a probed priority ≥ 6 |
| Scanner.FirstMaxIsBest | backend/server.py:185 | no fired module has a higher priority than the first maximum, and none earlier in module order an equal one |
| Scanner.SelectIsBest | backend/server.py:180-199 | the selected signal is the first fired module of greatest priority, stored with its own proposal, imbalance and priority |
| Scanner.PairSignalIsBest | backend/server.py:166-199 | a pair's signal is the first module in evaluation order of greatest probed priority on this cycle's snapshots, with that module's own entry, levels and imbalance |
| Scanner.ScanPair | backend/server.py:155-201 | filtered tickers change nothing; only the pair's window changes, and it becomes the bounded append of the new snapshot |
| Scanner.ScanPairStoresSignal | backend/server.py:163-201 | an admitted ticker pushes exactly the pair's signal at the head of the store when there is one, and leaves the store alone otherwise |
| Scanner.ScanPairStoresAtMostOne | backend/server.py:166-201 | nothing is stored on a pair's first admission; otherwise at most one signal is pushed, at the head, for this pair, with priority ≥ 6 |
| Scanner.AppendKeepsWindowValid | backend/server.py:163-167 | appending an admitted snapshot keeps a window non-empty, within 12 and admitted-only |
| Scanner.PushKeepsStoreValid | backend/server.py:187-201 | pushing a signal that passed the threshold keeps the store within 20 and all above the threshold |
| Scanner.ScanPairPreservesValid | backend/server.py:155-201 | a pair's turn preserves the engine invariant |
| Scanner.ScanPairKeepsWindowsValid | backend/server.py:157-167 | a pair's turn keeps every history window non-empty, within 12 and holding only admitted snapshots of an IDR pair |
| Scanner.ScanPairKeepsStoreValid | backend/server.py:187-201 | a pair's turn keeps the store within 20 signals, each of an IDR pair with priority ≥ 6 |
| Scanner.ScanAll | backend/server.py:155 | a pair absent from the response keeps its window; no window disappears |
| Scanner.ScanCycle | backend/server.py:150-155 | a failed fetch leaves the engine unchanged |
| Scanner.ScanAllPreservesValid | backend/server.py:155-204 | a whole response preserves the engine invariant |
| Scanner.ScanCyclePreservesValid | backend/server.py:149-206 | every cycle preserves the engine invariant |
| EngineProperties.ScanPairHistory | backend/server.py:157-167 | an admitted pair's window becomes old + [now], minus the oldest entry at 12; other windows are unchanged; a filtered ticker changes nothing |
| EngineProperties.BreakoutNeverFiresInScan | backend/server.py:166-173 | with the snapshot appended first, breakout is never among the candidates |
| EngineProperties.NoBreakoutSignal | backend/server.py:166-201 | no breakout signal is ever stored |
| EngineProperties.DefaultSplitIsInert | backend/server.py:161-162 | without buy/sell fields, accumulation never fires and no buy/sell award is earned |
| EngineProperties.FullStoreEvictsOldest | backend/server.py:201 | a push onto a full store keeps 20 entries and evicts exactly the oldest |
| EngineProperties.EmptyBookAddsNothing | backend/server.py:183 | an empty order book leaves the priority equal to the score |
| EngineProperties.ScalperExample | backend/server.py:81-87 | the 100 → 101 example yields a scalper candidate with entry 101, levels 104.535 / 100.192 and score 10 |

## Left out

- HTTP and `safe_get`: the retries, `time.sleep`, timeouts and JSON decoding are left out. The summaries response is an optional list of (pair, raw ticker) entries, in dict order. Each order-book fetch is a parameter `(pair, mode) -> Option<OrderBook>`, one fetch per fired module.
- The Flask app, the `/api/signals` endpoint, the worker thread, the `while True` loop and logging are I/O and concurrency; the model is one cycle at a time.
- Signal `id` (`uuid4`) and `time` (wall clock) are non-deterministic, so the stored signal omits them. The always-false `news` field is omitted too.
- Floating point: all arithmetic is on exact reals. `round` is round-half-even on the exact value. A float's binary representation can move a decimal tie, which the model does not reproduce.
- Exception paths: a non-numeric field makes `float(...)` raise, and the per-pair `try/except` then skips the pair. Raw fields are modelled as present numbers or absent.
- Order-book prices are not used by the source, only quantities.
- Cooldown gate, news boost, outbound message channel: the source has none of them.
- OrderBookProbe.ImbalanceSign: the sign of the result follows buy − sell only weakly. The source rounds to one decimal before returning, so a small skew comes back as 0. The strict sign is stated for the unrounded ratio (`OrderBookProbe.RatioBounded`).
