/** One pass of the scanner loop: normalize a raw ticker, admit it into the
    pair's history window, run every detection module, rank the candidates
    by priority and store the best one when it reaches the alert threshold. */
module Scanner {
  import opened Options
  import opened Types
  import opened Rounding
  import opened Scoring
  import opened OrderBookProbe
  import opened Detection
  import Bounded

  /** A ticker record as received: each field may be absent. */
  datatype RawTicker = RawTicker(last: Option<real>, volIdr: Option<real>,
                                 volBuy: Option<real>, volSell: Option<real>)

  /** Whether the pair is quoted in rupiah (`pair.endswith('idr')`). */
  predicate QuotedInIdr(pair: string) {
    |pair| >= 3 && pair[|pair| - 3..] == "idr"
  }

  /** The canonical snapshot: absent price and volume read as 0, absent buy
      and sell volume each as half the quote volume. */
  function Normalize(info: RawTicker): (s: Snapshot)
    ensures s.last == info.last.GetOr(0.0)
    ensures s.volIdr == info.volIdr.GetOr(0.0)
    ensures info.volBuy.Some? ==> s.volBuy == info.volBuy.value
    ensures info.volSell.Some? ==> s.volSell == info.volSell.value
    ensures info.volBuy.None? ==> s.volBuy == s.volIdr * 0.5
    ensures info.volSell.None? ==> s.volSell == s.volIdr * 0.5
    ensures info.volBuy.None? && info.volSell.None? ==>
              s.volBuy == s.volSell && s.volBuy + s.volSell == s.volIdr
  {
    var vol := info.volIdr.GetOr(0.0);
    Snapshot(info.last.GetOr(0.0), vol, info.volBuy.GetOr(vol * 0.5), info.volSell.GetOr(vol * 0.5))
  }

  /** The filter in front of the history: a pair not quoted in IDR, or whose
      quote volume is below the minimum, is skipped for this cycle. */
  function Admit(pair: string, info: RawTicker): (r: Option<Snapshot>)
    ensures r.Some? <==> QuotedInIdr(pair) && info.volIdr.GetOr(0.0) >= MinVolumeIdr
    ensures r.Some? ==> r.value == Normalize(info) && r.value.volIdr >= MinVolumeIdr
  {
    if !QuotedInIdr(pair) then None
    else
      var now := Normalize(info);
      if now.volIdr < MinVolumeIdr then None else Some(now)
  }

  /** Engine state: per-pair history windows (oldest first) and the signal
      store (newest first). */
  datatype Engine = Engine(history: map<string, seq<Snapshot>>, store: seq<Signal>)

  /** The engine at start-up. */
  const Initial: Engine := Engine(map[], [])

  /** A pair's window; a pair never admitted has an empty one. */
  function HistoryOf(e: Engine, pair: string): seq<Snapshot> {
    if pair in e.history then e.history[pair] else []
  }

  ghost predicate ValidWindow(pair: string, h: seq<Snapshot>) {
    && QuotedInIdr(pair)
    && 0 < |h| <= HistoryLen
    && forall i :: 0 <= i < |h| ==> h[i].volIdr >= MinVolumeIdr
  }

  ghost predicate ValidSignal(s: Signal) {
    QuotedInIdr(s.pair) && s.priority >= AlertThreshold
  }

  /** What the scanner maintains: only admitted pairs have windows, each
      window is non-empty, within capacity and holds only admitted snapshots;
      the store is within capacity and every stored signal met the threshold. */
  ghost predicate Valid(e: Engine) {
    && (forall p :: p in e.history ==> ValidWindow(p, e.history[p]))
    && |e.store| <= MaxSignalsStored
    && (forall i :: 0 <= i < |e.store| ==> ValidSignal(e.store[i]))
  }

  lemma InitialValid()
    ensures Valid(Initial)
  {
  }

  /** A candidate after probing: its imbalance and its priority. */
  datatype Scored = Scored(cand: Candidate, pair: string, imbalance: real, priority: real)

  function Abs(x: real): real {
    if x < 0.0 then -x else x
  }

  /** Priority = score + 0.15 * |imbalance|. */
  function Priority(score: int, imbalance: real): (p: real)
    ensures p >= score as real
    ensures imbalance == 0.0 ==> p == score as real
  {
    score as real + Abs(imbalance) * ImbalanceWeight
  }

  /** The order the scanner evaluates the modules in. */
  const ModuleOrder: seq<Mode> := [Scalper, MicroPump, Breakout, Accumulation, Rebound, Lowcap]

  function Rank(m: Mode): (k: nat)
    ensures k < |ModuleOrder| && ModuleOrder[k] == m
  {
    match m
    case Scalper => 0
    case MicroPump => 1
    case Breakout => 2
    case Accumulation => 3
    case Rebound => 4
    case Lowcap => 5
  }

  /** The order-book fetch for one probe, as seen by one pair: what
      `detect_ghost_behaviour` receives when called for a candidate of mode `m`. */
  type Probe = Mode -> Option<OrderBook>

  /** A fired candidate probed for its imbalance. */
  predicate Probed(c: Scored, pair: string, now: Snapshot, prev: Snapshot, hist: seq<Snapshot>, probe: Probe) {
    && Detect(c.cand.mode, now, prev, hist) == Some(c.cand)
    && c.pair == pair
    && c.imbalance == Imbalance(probe(c.cand.mode))
    && c.priority == Priority(c.cand.score, c.imbalance)
  }

  /** The modes present in a candidate list. */
  function ModesOf(cs: seq<Scored>): set<Mode> {
    set i | 0 <= i < |cs| :: cs[i].cand.mode
  }

  /** What each module returns, indexed by its position in the module order. */
  function Outcomes(now: Snapshot, prev: Snapshot, hist: seq<Snapshot>): (os: seq<Option<Candidate>>)
    ensures |os| == |ModuleOrder|
    ensures forall r :: 0 <= r < |os| ==> os[r] == Detect(ModuleOrder[r], now, prev, hist)
  {
    seq(|ModuleOrder|, r requires 0 <= r < |ModuleOrder| => Detect(ModuleOrder[r], now, prev, hist))
  }

  /** Each outcome is proposed by the module at its position. */
  predicate InOrder(os: seq<Option<Candidate>>) {
    && |os| == |ModuleOrder|
    && forall r :: 0 <= r < |os| && os[r].Some? ==> os[r].value.mode == ModuleOrder[r]
  }

  /** Rank is the position in the module order. */
  lemma RankInverts()
    ensures forall r :: 0 <= r < |ModuleOrder| ==> Rank(ModuleOrder[r]) == r
  {
  }

  lemma ModesOfCons(head: Scored, rest: seq<Scored>)
    ensures ModesOf([head] + rest) == {head.cand.mode} + ModesOf(rest)
  {
    var cs := [head] + rest;
    assert cs[0] == head;
    forall m | m in ModesOf(rest)
      ensures m in ModesOf(cs)
    {
      var i :| 0 <= i < |rest| && rest[i].cand.mode == m;
      assert cs[i + 1] == rest[i];
    }
  }

  /** The fired outcomes from position `k` on, in module order, each with the
      imbalance its probe reports. */
  function CandidatesFrom(k: nat, pair: string, os: seq<Option<Candidate>>, imbalanceOf: Mode -> real): (cs: seq<Scored>)
    requires InOrder(os) && k <= |os|
    decreases |os| - k
    ensures |cs| <= |os| - k
    ensures forall i :: 0 <= i < |cs| ==>
              && k <= Rank(cs[i].cand.mode)
              && os[Rank(cs[i].cand.mode)] == Some(cs[i].cand)
              && cs[i].pair == pair
              && cs[i].imbalance == imbalanceOf(cs[i].cand.mode)
              && cs[i].priority == Priority(cs[i].cand.score, cs[i].imbalance)
  {
    if k == |os| then []
    else
      var rest := CandidatesFrom(k + 1, pair, os, imbalanceOf);
      match os[k]
      case None => rest
      case Some(c) =>
        var g := imbalanceOf(c.mode);
        RankInverts();
        [Scored(c, pair, g, Priority(c.score, g))] + rest
  }

  /** Candidates listed in strictly increasing module order. */
  predicate Ordered(cs: seq<Scored>) {
    forall i, j :: 0 <= i < j < |cs| ==> Rank(cs[i].cand.mode) < Rank(cs[j].cand.mode)
  }

  /** A candidate ranked below every later one extends an ordered list. */
  lemma OrderedCons(head: Scored, rest: seq<Scored>)
    requires Ordered(rest)
    requires forall j :: 0 <= j < |rest| ==> Rank(head.cand.mode) < Rank(rest[j].cand.mode)
    ensures Ordered([head] + rest)
  {
    var cs := [head] + rest;
    forall i, j | 0 <= i < j < |cs|
      ensures Rank(cs[i].cand.mode) < Rank(cs[j].cand.mode)
    {
      assert cs[j] == rest[j - 1];
      if i > 0 {
        assert cs[i] == rest[i - 1];
      }
    }
  }

  /** The candidates come out in module order. */
  lemma {:induction false} CandidatesFromOrdered(k: nat, pair: string, os: seq<Option<Candidate>>, imbalanceOf: Mode -> real)
    requires InOrder(os) && k <= |os|
    decreases |os| - k
    ensures Ordered(CandidatesFrom(k, pair, os, imbalanceOf))
  {
    if k < |os| {
      CandidatesFromOrdered(k + 1, pair, os, imbalanceOf);
      var rest := CandidatesFrom(k + 1, pair, os, imbalanceOf);
      var cs := CandidatesFrom(k, pair, os, imbalanceOf);
      if os[k].Some? {
        RankInverts();
        assert Rank(cs[0].cand.mode) == k;
        assert cs == [cs[0]] + rest;
        OrderedCons(cs[0], rest);
      } else {
        assert cs == rest;
      }
    }
  }

  /** A module from position `k` on has a candidate exactly when it fired. */
  lemma {:induction false} CandidatesFromComplete(k: nat, pair: string, os: seq<Option<Candidate>>, imbalanceOf: Mode -> real)
    requires InOrder(os) && k <= |os|
    decreases |os| - k
    ensures var cs := CandidatesFrom(k, pair, os, imbalanceOf);
            forall r :: k <= r < |os| ==> (os[r].Some? <==> ModuleOrder[r] in ModesOf(cs))
  {
    if k < |os| {
      CandidatesFromComplete(k + 1, pair, os, imbalanceOf);
      var rest := CandidatesFrom(k + 1, pair, os, imbalanceOf);
      var cs := CandidatesFrom(k, pair, os, imbalanceOf);
      RankInverts();
      assert ModuleOrder[k] !in ModesOf(rest);
      if os[k].Some? {
        assert cs == [cs[0]] + rest;
        ModesOfCons(cs[0], rest);
      }
    }
  }

  /** Every module's candidate, in module order, each probed for its imbalance. */
  function Candidates(pair: string, now: Snapshot, prev: Snapshot, hist: seq<Snapshot>, probe: Probe): (cs: seq<Scored>)
    ensures |cs| <= |ModuleOrder|
    ensures forall i :: 0 <= i < |cs| ==> Probed(cs[i], pair, now, prev, hist, probe)
    ensures Ordered(cs)
    ensures forall m :: Detect(m, now, prev, hist).Some? <==> m in ModesOf(cs)
  {
    var os := Outcomes(now, prev, hist);
    var cs := CandidatesFrom(0, pair, os, m => Imbalance(probe(m)));
    CandidatesFromOrdered(0, pair, os, m => Imbalance(probe(m)));
    CandidatesFromComplete(0, pair, os, m => Imbalance(probe(m)));
    assert forall m :: Detect(m, now, prev, hist) == os[Rank(m)];
    cs
  }

  /** `max(candidates, key=priority)`: the first candidate of greatest priority. */
  function FirstMax(cs: seq<Scored>): (i: nat)
    requires |cs| > 0
    ensures i < |cs|
    ensures forall j :: 0 <= j < |cs| ==> cs[j].priority <= cs[i].priority
    ensures forall j :: 0 <= j < i ==> cs[j].priority < cs[i].priority
  {
    if |cs| == 1 then 0
    else
      var k := FirstMax(cs[..|cs| - 1]);
      if cs[|cs| - 1].priority > cs[k].priority then |cs| - 1 else k
  }

  /** The stored form of a selected candidate; its priority is rounded to one decimal. */
  function ToSignal(c: Scored): (s: Signal)
    ensures s.pair == c.pair && s.mode == c.cand.mode && s.imbalance == c.imbalance
    ensures s.entry == c.cand.entry && s.tp == c.cand.tp && s.sl == c.cand.sl
    ensures c.priority - 0.05 <= s.priority <= c.priority + 0.05
    ensures c.priority >= AlertThreshold ==> s.priority >= AlertThreshold
  {
    var s := Signal(c.cand.mode, c.pair, c.cand.entry, c.cand.tp, c.cand.sl, Round1(c.priority), c.imbalance);
    if c.priority >= AlertThreshold then
      Round1KeepsIntegerLowerBound(c.priority, 6);
      s
    else
      s
  }

  /** The signal a pair produces this cycle, if any: the best candidate, when
      its priority reaches the threshold. */
  function Select(cs: seq<Scored>): (r: Option<Signal>)
    ensures r.Some? <==> exists i :: 0 <= i < |cs| && cs[i].priority >= AlertThreshold
    ensures r.Some? ==> exists i :: 0 <= i < |cs| && r.value == ToSignal(cs[i])
                                    && AlertThreshold <= cs[i].priority
                                    && (forall j :: 0 <= j < |cs| ==> cs[j].priority <= cs[i].priority)
                                    && (forall j :: 0 <= j < i ==> cs[j].priority < cs[i].priority)
    ensures r.Some? ==> r.value.mode in ModesOf(cs)
  {
    if |cs| == 0 then None
    else
      var b := FirstMax(cs);
      if cs[b].priority >= AlertThreshold then Some(ToSignal(cs[b])) else None
  }

  /** The pair's window once the admitted snapshot `now` is appended. */
  function WindowWith(e: Engine, pair: string, now: Snapshot): seq<Snapshot> {
    Bounded.Append(HistoryOf(e, pair), now, HistoryLen)
  }

  /** The pair's most recent snapshot before this cycle. */
  function Latest(e: Engine, pair: string): Snapshot
    requires |HistoryOf(e, pair)| > 0
  {
    HistoryOf(e, pair)[|HistoryOf(e, pair)| - 1]
  }

  /** Module `m` fires and its probed priority reaches the alert threshold. */
  predicate Alerts(m: Mode, now: Snapshot, prev: Snapshot, hist: seq<Snapshot>, probe: Probe) {
    && Detect(m, now, prev, hist).Some?
    && Priority(Detect(m, now, prev, hist).value.score, Imbalance(probe(m))) >= AlertThreshold
  }

  /** Over a complete list of probed candidates, some candidate reaches the
      threshold exactly when some module alerts. */
  lemma SomeCandidateAlerts(cs: seq<Scored>, pair: string, now: Snapshot, prev: Snapshot,
                            hist: seq<Snapshot>, probe: Probe)
    requires forall i :: 0 <= i < |cs| ==> Probed(cs[i], pair, now, prev, hist, probe)
    requires forall m :: Detect(m, now, prev, hist).Some? <==> m in ModesOf(cs)
    ensures (exists i :: 0 <= i < |cs| && cs[i].priority >= AlertThreshold)
            <==> (exists m :: Alerts(m, now, prev, hist, probe))
  {
    if exists i :: 0 <= i < |cs| && cs[i].priority >= AlertThreshold {
      var i :| 0 <= i < |cs| && cs[i].priority >= AlertThreshold;
      assert Alerts(cs[i].cand.mode, now, prev, hist, probe);
    }
    if exists m :: Alerts(m, now, prev, hist, probe) {
      var m :| Alerts(m, now, prev, hist, probe);
      assert m in ModesOf(cs);
      var i :| 0 <= i < |cs| && cs[i].cand.mode == m;
      assert cs[i].priority >= AlertThreshold;
    }
  }

  /** The signal an admitted snapshot `now` of `pair` produces: none on the
      pair's first admission (there is no previous snapshot), otherwise one
      exactly when some module fires on (now, the previous snapshot, the
      window already holding `now`) with a priority reaching the threshold. */
  function PairSignal(e: Engine, pair: string, now: Snapshot, probe: Probe): (r: Option<Signal>)
    ensures |HistoryOf(e, pair)| == 0 ==> r.None?
    ensures |HistoryOf(e, pair)| > 0 ==>
              (r.Some? <==> exists m :: Alerts(m, now, Latest(e, pair), WindowWith(e, pair, now), probe))
    ensures r.Some? ==> && r.value.pair == pair && r.value.priority >= AlertThreshold
                        && |HistoryOf(e, pair)| > 0
                        && Detect(r.value.mode, now, Latest(e, pair), WindowWith(e, pair, now)).Some?
  {
    if |HistoryOf(e, pair)| == 0 then None
    else
      var prev, window := Latest(e, pair), WindowWith(e, pair, now);
      var cs := Candidates(pair, now, prev, window, probe);
      SomeCandidateAlerts(cs, pair, now, prev, window, probe);
      Select(cs)
  }

  /** The candidates a module list yields: each one is its module's outcome
      (`fired`) probed for its imbalance (`imbalanceOf`). */
  ghost predicate ProbedBy(cs: seq<Scored>, pair: string, fired: Mode -> Option<Candidate>, imbalanceOf: Mode -> real) {
    forall i :: 0 <= i < |cs| ==>
      && fired(cs[i].cand.mode) == Some(cs[i].cand)
      && cs[i].pair == pair
      && cs[i].imbalance == imbalanceOf(cs[i].cand.mode)
      && cs[i].priority == Priority(cs[i].cand.score, cs[i].imbalance)
  }

  /** Over a complete, ordered list of probed candidates, no fired module has
      a greater priority than the first maximum, and none before it in module
      order has an equal one. */
  lemma FirstMaxIsBest(cs: seq<Scored>, pair: string, fired: Mode -> Option<Candidate>, imbalanceOf: Mode -> real)
    requires ProbedBy(cs, pair, fired, imbalanceOf)
    requires forall m :: fired(m).Some? <==> m in ModesOf(cs)
    requires Ordered(cs) && |cs| > 0
    ensures var b := cs[FirstMax(cs)];
            forall m :: fired(m).Some? ==>
              && Priority(fired(m).value.score, imbalanceOf(m)) <= b.priority
              && (Rank(m) < Rank(b.cand.mode) ==> Priority(fired(m).value.score, imbalanceOf(m)) < b.priority)
  {
    var i := FirstMax(cs);
    forall m | fired(m).Some?
      ensures Priority(fired(m).value.score, imbalanceOf(m)) <= cs[i].priority
      ensures Rank(m) < Rank(cs[i].cand.mode) ==> Priority(fired(m).value.score, imbalanceOf(m)) < cs[i].priority
    {
      assert m in ModesOf(cs);
      var j :| 0 <= j < |cs| && cs[j].cand.mode == m;
      assert i <= j ==> Rank(cs[i].cand.mode) <= Rank(cs[j].cand.mode);
    }
  }

  /** `sig` is the stored form of the first module, in module order, of
      greatest priority among those that fire (`fired` gives each module's
      outcome, `imbalanceOf` each probe's result), with that module's own
      proposal and probe. */
  ghost predicate BestAmong(sig: Signal, pair: string, fired: Mode -> Option<Candidate>, imbalanceOf: Mode -> real) {
    && fired(sig.mode).Some?
    && var c := fired(sig.mode).value;
       var best := Priority(c.score, imbalanceOf(sig.mode));
       && sig == ToSignal(Scored(c, pair, imbalanceOf(sig.mode), best))
       && (forall m :: fired(m).Some? ==> Priority(fired(m).value.score, imbalanceOf(m)) <= best)
       && (forall m :: fired(m).Some? && Rank(m) < Rank(sig.mode) ==>
             Priority(fired(m).value.score, imbalanceOf(m)) < best)
  }

  /** Over a complete, ordered list of probed candidates, the selected signal
      comes from the first fired module, in module order, of greatest
      priority, stored with its own proposal and probe. */
  lemma SelectIsBest(cs: seq<Scored>, pair: string, fired: Mode -> Option<Candidate>, imbalanceOf: Mode -> real)
    requires ProbedBy(cs, pair, fired, imbalanceOf)
    requires forall m :: fired(m).Some? <==> m in ModesOf(cs)
    requires Ordered(cs)
    requires Select(cs).Some?
    ensures BestAmong(Select(cs).value, pair, fired, imbalanceOf)
  {
    var i := FirstMax(cs);
    var sig := ToSignal(cs[i]);
    assert Select(cs) == Some(sig);
    assert cs[i] == Scored(fired(sig.mode).value, pair, imbalanceOf(sig.mode), cs[i].priority);
    FirstMaxIsBest(cs, pair, fired, imbalanceOf);
  }

  /** The signal a pair produces is the first fired module, in module order,
      of greatest probed priority, stored with its own proposal and probe. */
  lemma PairSignalIsBest(e: Engine, pair: string, now: Snapshot, probe: Probe)
    ensures PairSignal(e, pair, now, probe).Some? ==>
              BestAmong(PairSignal(e, pair, now, probe).value, pair,
                        m => Detect(m, now, Latest(e, pair), WindowWith(e, pair, now)), m => Imbalance(probe(m)))
  {
    if |HistoryOf(e, pair)| > 0 {
      var prev, window := Latest(e, pair), WindowWith(e, pair, now);
      var cs := Candidates(pair, now, prev, window, probe);
      PairSignalSelects(e, pair, now, probe);
      if Select(cs).Some? {
        CandidatesProbedBy(pair, now, prev, window, probe);
        SelectIsBest(cs, pair, m => Detect(m, now, prev, window), m => Imbalance(probe(m)));
      }
    }
  }

  /** The candidate list in the terms of `SelectIsBest`. */
  lemma CandidatesProbedBy(pair: string, now: Snapshot, prev: Snapshot, hist: seq<Snapshot>, probe: Probe)
    ensures var cs := Candidates(pair, now, prev, hist, probe);
            var fired := m => Detect(m, now, prev, hist);
            && ProbedBy(cs, pair, fired, m => Imbalance(probe(m)))
            && (forall m :: fired(m).Some? <==> m in ModesOf(cs))
            && Ordered(cs)
  {
  }

  /** On a pair with history, the signal is the selection among the candidates. */
  lemma PairSignalSelects(e: Engine, pair: string, now: Snapshot, probe: Probe)
    requires |HistoryOf(e, pair)| > 0
    ensures PairSignal(e, pair, now, probe)
            == Select(Candidates(pair, now, Latest(e, pair), WindowWith(e, pair, now), probe))
  {
  }

  /** One pair's turn in the scanner loop. */
  function ScanPair(e: Engine, pair: string, info: RawTicker, probe: Probe): (r: Engine)
    ensures Admit(pair, info).None? ==> r == e
    ensures r.history - {pair} == e.history - {pair}
    ensures Admit(pair, info).Some? ==>
              pair in r.history && r.history[pair] == Bounded.Append(HistoryOf(e, pair), Admit(pair, info).value, HistoryLen)
  {
    match Admit(pair, info)
    case None => e
    case Some(now) =>
      var window := WindowWith(e, pair, now);
      var e1 := e.(history := e.history[pair := window]);
      assert e1.history - {pair} == e.history - {pair};
      match PairSignal(e, pair, now, probe)
      case None => e1
      case Some(sig) => e1.(store := Bounded.AppendLeft(e.store, sig, MaxSignalsStored))
  }

  /** An admitted snapshot stores exactly the signal the pair produces, at
      the head of the store, when there is one, and nothing otherwise. */
  lemma ScanPairStoresSignal(e: Engine, pair: string, info: RawTicker, probe: Probe)
    ensures var r := ScanPair(e, pair, info, probe);
            Admit(pair, info).Some? ==>
              var sig := PairSignal(e, pair, Admit(pair, info).value, probe);
              r.store == if sig.Some? then Bounded.AppendLeft(e.store, sig.value, MaxSignalsStored) else e.store
  {
  }

  /** A pair's turn stores nothing on the pair's first admission and
      otherwise at most one signal: one for this pair, at or above the
      threshold, pushed at the head of the store. */
  lemma ScanPairStoresAtMostOne(e: Engine, pair: string, info: RawTicker, probe: Probe)
    ensures var r := ScanPair(e, pair, info, probe);
            && (|HistoryOf(e, pair)| == 0 ==> r.store == e.store)
            && (|| r.store == e.store
                || (&& |r.store| > 0
                    && r.store[0].pair == pair
                    && r.store[0].priority >= AlertThreshold
                    && r.store == Bounded.AppendLeft(e.store, r.store[0], MaxSignalsStored)))
  {
  }

  /** Appending an admitted snapshot keeps a pair's window valid. */
  lemma AppendKeepsWindowValid(pair: string, before: seq<Snapshot>, now: Snapshot)
    requires QuotedInIdr(pair) && now.volIdr >= MinVolumeIdr
    requires |before| == 0 || ValidWindow(pair, before)
    ensures ValidWindow(pair, Bounded.Append(before, now, HistoryLen))
  {
    var window := Bounded.Append(before, now, HistoryLen);
    if |before| < HistoryLen {
      assert window == before + [now];
      assert forall i :: 0 <= i < |before| ==> window[i] == before[i];
    } else {
      assert window == before[1..] + [now];
      assert forall i :: 0 <= i < |before| - 1 ==> window[i] == before[i + 1];
    }
  }

  /** Pushing a valid signal keeps the store valid. */
  lemma PushKeepsStoreValid(store: seq<Signal>, sig: Signal)
    requires |store| <= MaxSignalsStored && forall i :: 0 <= i < |store| ==> ValidSignal(store[i])
    requires ValidSignal(sig)
    ensures var r := Bounded.AppendLeft(store, sig, MaxSignalsStored);
            |r| <= MaxSignalsStored && forall i :: 0 <= i < |r| ==> ValidSignal(r[i])
  {
    var r := Bounded.AppendLeft(store, sig, MaxSignalsStored);
    assert forall i :: 1 <= i < |r| ==> r[i] == store[i - 1];
  }

  /** A pair's turn keeps the engine valid. */
  lemma ScanPairPreservesValid(e: Engine, pair: string, info: RawTicker, probe: Probe)
    requires Valid(e)
    ensures Valid(ScanPair(e, pair, info, probe))
  {
    ScanPairKeepsWindowsValid(e, pair, info, probe);
    ScanPairKeepsStoreValid(e, pair, info, probe);
  }

  /** A pair's turn keeps every history window valid. */
  lemma ScanPairKeepsWindowsValid(e: Engine, pair: string, info: RawTicker, probe: Probe)
    requires forall p :: p in e.history ==> ValidWindow(p, e.history[p])
    ensures var r := ScanPair(e, pair, info, probe);
            forall p :: p in r.history ==> ValidWindow(p, r.history[p])
  {
    var r := ScanPair(e, pair, info, probe);
    if Admit(pair, info).Some? {
      AppendKeepsWindowValid(pair, HistoryOf(e, pair), Admit(pair, info).value);
      forall p | p in r.history
        ensures ValidWindow(p, r.history[p])
      {
        if p != pair {
          assert p in r.history - {pair};
        }
      }
    }
  }

  /** A pair's turn keeps the store valid. */
  lemma ScanPairKeepsStoreValid(e: Engine, pair: string, info: RawTicker, probe: Probe)
    requires |e.store| <= MaxSignalsStored && forall i :: 0 <= i < |e.store| ==> ValidSignal(e.store[i])
    ensures var r := ScanPair(e, pair, info, probe);
            |r.store| <= MaxSignalsStored && forall i :: 0 <= i < |r.store| ==> ValidSignal(r.store[i])
  {
    var r := ScanPair(e, pair, info, probe);
    ScanPairStoresAtMostOne(e, pair, info, probe);
    if r.store != e.store {
      assert QuotedInIdr(pair) by {
        assert Admit(pair, info).Some?;
      }
      PushKeepsStoreValid(e.store, r.store[0]);
    }
  }

  /** A cycle over the tickers of one summaries response, in response order. */
  function ScanAll(e: Engine, tickers: seq<(string, RawTicker)>, probe: (string, Mode) -> Option<OrderBook>): (r: Engine)
    decreases |tickers|
    ensures e.history.Keys <= r.history.Keys
    ensures forall p :: (forall t :: 0 <= t < |tickers| ==> tickers[t].0 != p) ==> HistoryOf(r, p) == HistoryOf(e, p)
  {
    if |tickers| == 0 then e
    else
      var pair := tickers[0].0;
      var next := ScanPair(e, pair, tickers[0].1, m => probe(pair, m));
      assert forall p :: p != pair ==> HistoryOf(next, p) == HistoryOf(e, p) by {
        forall p | p != pair
          ensures HistoryOf(next, p) == HistoryOf(e, p)
        {
          assert p in next.history <==> p in next.history - {pair};
          assert p in e.history <==> p in e.history - {pair};
        }
      }
      ScanAll(next, tickers[1..], probe)
  }

  /** `scanner_worker`'s loop body: a failed fetch (or one without tickers)
      leaves the engine as it was. */
  function ScanCycle(e: Engine, feed: Option<seq<(string, RawTicker)>>, probe: (string, Mode) -> Option<OrderBook>): (r: Engine)
    ensures feed.None? ==> r == e
  {
    match feed
    case None => e
    case Some(tickers) => ScanAll(e, tickers, probe)
  }

  /** A whole cycle keeps the engine valid: history windows stay within 12
      admitted snapshots and the store within 20 signals over the threshold. */
  lemma {:induction false} ScanAllPreservesValid(e: Engine, tickers: seq<(string, RawTicker)>,
                                                 probe: (string, Mode) -> Option<OrderBook>)
    requires Valid(e)
    ensures Valid(ScanAll(e, tickers, probe))
    decreases |tickers|
  {
    if |tickers| > 0 {
      var pair := tickers[0].0;
      ScanPairPreservesValid(e, pair, tickers[0].1, m => probe(pair, m));
      ScanAllPreservesValid(ScanPair(e, pair, tickers[0].1, m => probe(pair, m)), tickers[1..], probe);
    }
  }

  lemma ScanCyclePreservesValid(e: Engine, feed: Option<seq<(string, RawTicker)>>,
                                probe: (string, Mode) -> Option<OrderBook>)
    requires Valid(e)
    ensures Valid(ScanCycle(e, feed, probe))
  {
    if feed.Some? {
      ScanAllPreservesValid(e, feed.value, probe);
    }
  }
}
