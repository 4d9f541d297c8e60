/** The carver backtest: monthly rebalances that hold every long candidate to the next one. */
module Carver {
  import opened Prelude
  import opened Panels

  datatype Candidate = Candidate(ticker: Ticker, forecast: real)

  datatype Trade = Trade(
    ticker: Ticker, entryDate: Date, entryPrice: real, exitDate: Date, exitPrice: real, pnl: real, forecast: real)

  /** `detect(trimmed, as_of)` stands for CarverSetupDetection.detect; `month` numbers the calendar
      month of a date. */
  datatype Setup = Setup(
    costs: map<Ticker, real>,
    detect: (PanelSet, Date) -> seq<Candidate>,
    month: Date -> int)

  const SLIPPAGE_PER_SIDE := 0.0005

  function SlippagePerSide(costs: map<Ticker, real>, ticker: Ticker): real {
    if ticker in costs then costs[ticker] / 2.0 else SLIPPAGE_PER_SIDE
  }

  // ── Rebalance dates ──────────────────────────────────────────────────────

  ghost predicate StrictlyIncreasing(ds: seq<Date>) {
    forall i, j :: 0 <= i < j < |ds| ==> ds[i] < ds[j]
  }

  /** `d` is the first session of its month within [start, end]. */
  ghost predicate FirstOfMonth(sessions: seq<Date>, start: Date, end: Date, month: Date -> int, d: Date) {
    && d in sessions && start <= d <= end
    && forall e <- sessions :: start <= e <= end && month(e) == month(d) ==> d <= e
  }

  /** Some session of the range lies in month `m`. */
  ghost predicate MonthSeen(sessions: seq<Date>, start: Date, end: Date, month: Date -> int, m: int) {
    exists e <- sessions :: start <= e <= end && month(e) == m
  }

  /** A later session becomes the first of its month exactly when its month was not seen before. */
  lemma FirstOfMonthSnoc(sessions: seq<Date>, start: Date, end: Date, month: Date -> int, ts: Date, d: Date)
    requires forall e <- sessions :: e < ts
    ensures FirstOfMonth(sessions + [ts], start, end, month, d) <==>
      || FirstOfMonth(sessions, start, end, month, d)
      || (d == ts && start <= ts <= end && !MonthSeen(sessions, start, end, month, month(ts)))
  {
    if FirstOfMonth(sessions, start, end, month, d) {
      assert d < ts;
    }
    if d == ts && MonthSeen(sessions, start, end, month, month(ts)) {
      var e :| e in sessions && start <= e <= end && month(e) == month(ts);
      assert e in sessions + [ts];
    }
    assert forall e <- sessions :: e in sessions + [ts];
  }

  lemma MonthSeenSnoc(sessions: seq<Date>, start: Date, end: Date, month: Date -> int, ts: Date, m: int)
    ensures MonthSeen(sessions + [ts], start, end, month, m) <==>
      MonthSeen(sessions, start, end, month, m) || (start <= ts <= end && month(ts) == m)
  {
    if MonthSeen(sessions, start, end, month, m) {
      var e :| e in sessions && start <= e <= end && month(e) == m;
      assert e in sessions + [ts];
    }
    if start <= ts <= end && month(ts) == m {
      assert ts in sessions + [ts];
    }
  }

  lemma Take(sessions: seq<Date>, i: nat)
    requires StrictlyIncreasing(sessions) && i < |sessions|
    ensures sessions[..i + 1] == sessions[..i] + [sessions[i]]
    ensures forall e <- sessions[..i] :: e < sessions[i]
  {
  }

  /** `sessions` are the sorted distinct dates of the panels. The result lists, in order, exactly the
      first session of every month that has one in the range. */
  method RebalanceDates(sessions: seq<Date>, start: Date, end: Date, month: Date -> int) returns (out: seq<Date>)
    requires StrictlyIncreasing(sessions)
    ensures StrictlyIncreasing(out)
    ensures forall d :: d in out <==> FirstOfMonth(sessions, start, end, month, d)
  {
    var seen: set<int> := {};
    out := [];
    for i := 0 to |sessions|
      invariant StrictlyIncreasing(out)
      invariant forall d :: d in out <==> FirstOfMonth(sessions[..i], start, end, month, d)
      invariant forall m :: m in seen <==> MonthSeen(sessions[..i], start, end, month, m)
    {
      var ts := sessions[i];
      Take(sessions, i);
      forall d {
        FirstOfMonthSnoc(sessions[..i], start, end, month, ts, d);
      }
      forall m {
        MonthSeenSnoc(sessions[..i], start, end, month, ts, m);
      }
      if !(start <= ts <= end) {
        continue;
      }
      var key := month(ts);
      if key in seen {
        continue;
      }
      assert forall k :: 0 <= k < |out| ==> out[k] in out && out[k] < ts;
      seen := seen + {key};
      out := out + [ts];
    }
    assert sessions[..|sessions|] == sessions;
  }

  /** No month is rebalanced twice. */
  lemma OnePerMonth(sessions: seq<Date>, start: Date, end: Date, month: Date -> int, d: Date, e: Date)
    requires FirstOfMonth(sessions, start, end, month, d) && FirstOfMonth(sessions, start, end, month, e)
    ensures month(d) == month(e) <==> d == e
  {
    if month(d) == month(e) {
      assert d <= e && e <= d;
    }
  }

  // ── One rebalance ────────────────────────────────────────────────────────

  /** The point-in-time view handed to the detector. */
  function Trimmed(panels: PanelSet, ts: Date): PanelSet {
    PanelSet(Filter(panels.names, (t: Ticker) => t in panels.bars && Trim(panels.bars[t], ts) != []),
             map t <- panels.bars | Trim(panels.bars[t], ts) != [] :: Trim(panels.bars[t], ts))
  }

  /** The first bar dated on or after `next`, or the last bar. */
  function ExitIndex(panel: Panel, next: Option<Date>): (k: nat)
    requires panel != []
    ensures k < |panel|
    ensures next.Some? ==> forall j :: 0 <= j < k ==> panel[j].date < next.value
    ensures next.Some? && k < |panel| - 1 ==> panel[k].date >= next.value
  {
    match next
    case None => |panel| - 1
    case Some(d) => if panel[0].date >= d || |panel| == 1 then 0 else 1 + ExitIndex(panel[1..], next)
  }

  function Price(px: real, factor: real): real {
    px * factor
  }

  function Pnl(entryPx: real, exitPx: real): real
    requires entryPx > 0.0
  {
    exitPx / entryPx - 1.0
  }

  /** The trade of one candidate, or None on one of the loop's `continue` paths. */
  function TradeOf(setup: Setup, cand: Candidate, panel: Panel, ts: Date, next: Option<Date>): Option<Trade> {
    if cand.forecast <= 0.0 then None
    else match Find(panel, ts)
      case None => None
      case Some(entry) =>
        if entry + 1 >= |panel| then None
        else
          var exit := ExitIndex(panel, next);
          if exit <= entry + 1 then None
          else
            var slip := SlippagePerSide(setup.costs, cand.ticker);
            var entryPx, exitPx := Price(panel[entry + 1].open, 1.0 + slip), Price(panel[exit].close, 1.0 - slip);
            if entryPx <= 0.0 then None
            else Some(Trade(cand.ticker, panel[entry + 1].date, entryPx, panel[exit].date, exitPx,
                            Pnl(entryPx, exitPx), cand.forecast))
  }

  /** The detector only names tickers it was shown (an unknown name would raise). */
  ghost predicate Honest(setup: Setup, panels: PanelSet) {
    forall ts: Date :: AllKnown(panels, setup.detect(Trimmed(panels, ts), ts))
  }

  predicate AllKnown(panels: PanelSet, cands: seq<Candidate>) {
    forall c <- cands :: c.ticker in panels.bars
  }

  function TradesOf(setup: Setup, panels: PanelSet, cands: seq<Candidate>, ts: Date, next: Option<Date>): seq<Trade>
    requires AllKnown(panels, cands)
  {
    if cands == [] then []
    else
      var k := |cands| - 1;
      TradesOf(setup, panels, cands[..k], ts, next)
      + match TradeOf(setup, cands[k], panels.bars[cands[k].ticker], ts, next)
        case None => []
        case Some(t) => [t]
  }

  /** The trades of the rebalance at `ts`. */
  function Rebalance(setup: Setup, panels: PanelSet, ts: Date, next: Option<Date>): seq<Trade>
    requires Honest(setup, panels)
  {
    var trimmed := Trimmed(panels, ts);
    if trimmed.names == [] then [] else TradesOf(setup, panels, setup.detect(trimmed, ts), ts, next)
  }

  method ComputeOneRebalance(setup: Setup, panels: PanelSet, ts: Date, next: Option<Date>) returns (trades: seq<Trade>)
    requires Proper(panels) && Honest(setup, panels)
    ensures trades == Rebalance(setup, panels, ts, next)
  {
    trades := [];
    var trimmed := Trimmed(panels, ts);
    if trimmed.names == [] {
      return;
    }
    var candidates := setup.detect(trimmed, ts);
    assert AllKnown(panels, candidates);
    trades := HoldAll(setup, panels, candidates, ts, next);
  }

  /** The loop over the candidates. */
  method HoldAll(setup: Setup, panels: PanelSet, candidates: seq<Candidate>, ts: Date, next: Option<Date>)
    returns (trades: seq<Trade>)
    requires AllKnown(panels, candidates)
    ensures trades == TradesOf(setup, panels, candidates, ts, next)
  {
    trades := [];
    for i := 0 to |candidates|
      invariant trades == TradesOf(setup, panels, candidates[..i], ts, next)
    {
      assert candidates[..i + 1][..i] == candidates[..i] && candidates[i] in candidates;
      var trade := HoldToNext(setup, candidates[i], panels.bars[candidates[i].ticker], ts, next);
      if trade.Some? {
        trades := trades + [trade.value];
      }
    }
    assert candidates[..|candidates|] == candidates;
  }

  /** The loop body: enter at the next bar's open, leave at the bar of the next rebalance. */
  method HoldToNext(setup: Setup, cand: Candidate, panel: Panel, ts: Date, next: Option<Date>)
    returns (trade: Option<Trade>)
    ensures trade == TradeOf(setup, cand, panel, ts, next)
  {
    if cand.forecast <= 0.0 {
      return None;
    }
    var entryLoc := Find(panel, ts);
    if entryLoc.None? {
      return None;
    }
    var entryIdx := entryLoc.value;
    if entryIdx + 1 >= |panel| {
      return None;
    }
    var exitIdx := ExitIndex(panel, next);
    if exitIdx <= entryIdx + 1 {
      return None;
    }
    var slip := SlippagePerSide(setup.costs, cand.ticker);
    var entryPx := Price(panel[entryIdx + 1].open, 1.0 + slip);
    var exitPx := Price(panel[exitIdx].close, 1.0 - slip);
    if entryPx <= 0.0 {
      return None;
    }
    trade := Some(Trade(cand.ticker, panel[entryIdx + 1].date, entryPx, panel[exitIdx].date, exitPx,
                        Pnl(entryPx, exitPx), cand.forecast));
  }

  // ── The whole run ────────────────────────────────────────────────────────

  function NextOf(rebal: seq<Date>, i: nat): Option<Date>
    requires i < |rebal|
  {
    if i + 1 < |rebal| then Some(rebal[i + 1]) else None
  }

  /** The trades of the first `n` rebalances. */
  function Run(setup: Setup, panels: PanelSet, rebal: seq<Date>, n: nat): seq<Trade>
    requires n <= |rebal| && Honest(setup, panels)
  {
    if n == 0 then []
    else Run(setup, panels, rebal, n - 1) + Rebalance(setup, panels, rebal[n - 1], NextOf(rebal, n - 1))
  }

  method RunBacktest(setup: Setup, panels: PanelSet, sessions: seq<Date>, start: Date, end: Date)
    returns (trades: seq<Trade>, rebal: seq<Date>)
    requires Proper(panels) && Honest(setup, panels) && StrictlyIncreasing(sessions)
    ensures StrictlyIncreasing(rebal)
    ensures forall d :: d in rebal <==> FirstOfMonth(sessions, start, end, setup.month, d)
    ensures trades == Run(setup, panels, rebal, |rebal|)
  {
    rebal := RebalanceDates(sessions, start, end, setup.month);
    trades := [];
    if rebal == [] {
      return;
    }
    for i := 0 to |rebal|
      invariant trades == Run(setup, panels, rebal, i)
    {
      var nextTs := if i + 1 < |rebal| then Some(rebal[i + 1]) else None;
      var month := ComputeOneRebalance(setup, panels, rebal[i], nextTs);
      trades := trades + month;
    }
  }

  lemma {:induction false} TradesCome(setup: Setup, panels: PanelSet, cands: seq<Candidate>, ts: Date,
      next: Option<Date>, t: Trade)
    requires AllKnown(panels, cands)
    requires t in TradesOf(setup, panels, cands, ts, next)
    ensures exists c <- cands :: TradeOf(setup, c, panels.bars[c.ticker], ts, next) == Some(t)
  {
    if cands != [] {
      var k := |cands| - 1;
      if t in TradesOf(setup, panels, cands[..k], ts, next) {
        TradesCome(setup, panels, cands[..k], ts, next, t);
      } else {
        assert TradeOf(setup, cands[k], panels.bars[cands[k].ticker], ts, next) == Some(t);
      }
    }
  }

  /** `t` was entered at the bar after `ts` and left at the bar of the next rebalance. */
  ghost predicate Spans(panels: PanelSet, ts: Date, next: Option<Date>, t: Trade) {
    t.ticker in panels.bars &&
    var panel := panels.bars[t.ticker];
    && Find(panel, ts).Some? && Find(panel, ts).value + 1 < ExitIndex(panel, next)
    && t.entryDate == panel[Find(panel, ts).value + 1].date
    && t.exitDate == panel[ExitIndex(panel, next)].date
  }

  lemma TradeSpans(setup: Setup, panels: PanelSet, ts: Date, next: Option<Date>, t: Trade)
    requires Honest(setup, panels) && t in Rebalance(setup, panels, ts, next)
    ensures Spans(panels, ts, next, t)
  {
    TradesCome(setup, panels, setup.detect(Trimmed(panels, ts), ts), ts, next, t);
  }

  lemma ExitsBeforeEntry(panel: Panel, next: Date, later: Date)
    requires Sorted(panel) && next <= later && Find(panel, later).Some?
    ensures ExitIndex(panel, Some(next)) <= Find(panel, later).value
  {
    assert panel[Find(panel, later).value].date >= next;
  }

  lemma SpansOrdered(panels: PanelSet, ts: Date, next: Date, later: Date, after: Option<Date>, t: Trade, u: Trade)
    requires Proper(panels) && next <= later && t.ticker == u.ticker
    requires Spans(panels, ts, Some(next), t) && Spans(panels, later, after, u)
    ensures t.entryDate < t.exitDate < u.entryDate < u.exitDate
  {
    ExitsBeforeEntry(panels.bars[t.ticker], next, later);
  }

  /** Hold intervals of one ticker never overlap: a trade of an earlier rebalance is closed strictly
      before any trade of a later rebalance in the same ticker is opened. */
  lemma HoldsNeverOverlap(setup: Setup, panels: PanelSet, rebal: seq<Date>, i: nat, j: nat, t: Trade, u: Trade)
    requires Proper(panels) && Honest(setup, panels) && StrictlyIncreasing(rebal)
    requires i < j < |rebal|
    requires t in Rebalance(setup, panels, rebal[i], NextOf(rebal, i))
    requires u in Rebalance(setup, panels, rebal[j], NextOf(rebal, j))
    requires t.ticker == u.ticker
    ensures t.entryDate < t.exitDate < u.entryDate < u.exitDate
  {
    TradeSpans(setup, panels, rebal[i], NextOf(rebal, i), t);
    TradeSpans(setup, panels, rebal[j], NextOf(rebal, j), u);
    RunOrdered(panels, rebal, i, j, t, u);
  }

  lemma RunOrdered(panels: PanelSet, rebal: seq<Date>, i: nat, j: nat, t: Trade, u: Trade)
    requires Proper(panels) && StrictlyIncreasing(rebal) && i < j < |rebal|
    requires Spans(panels, rebal[i], NextOf(rebal, i), t) && Spans(panels, rebal[j], NextOf(rebal, j), u)
    requires t.ticker == u.ticker
    ensures t.entryDate < t.exitDate < u.entryDate < u.exitDate
  {
    assert i + 1 == j || rebal[i + 1] < rebal[j];
    SpansOrdered(panels, rebal[i], rebal[i + 1], rebal[j], NextOf(rebal, j), t, u);
  }

  // ── The same over the whole trade list ───────────────────────────────────

  ghost predicate DistinctTickers(cands: seq<Candidate>) {
    forall i, j :: 0 <= i < j < |cands| ==> cands[i].ticker != cands[j].ticker
  }

  /** Trades of one rebalance are in distinct tickers when the detector names each ticker once. */
  lemma {:induction false} OneTradePerTicker(setup: Setup, panels: PanelSet, cands: seq<Candidate>, ts: Date,
      next: Option<Date>)
    requires AllKnown(panels, cands) && DistinctTickers(cands)
    ensures var trades := TradesOf(setup, panels, cands, ts, next);
      && (forall t <- trades :: exists c <- cands :: c.ticker == t.ticker)
      && forall p, q :: 0 <= p < q < |trades| ==> trades[p].ticker != trades[q].ticker
  {
    if cands != [] {
      var k := |cands| - 1;
      OneTradePerTicker(setup, panels, cands[..k], ts, next);
      forall t <- TradesOf(setup, panels, cands[..k], ts, next) ensures t.ticker != cands[k].ticker {
        var c :| c in cands[..k] && c.ticker == t.ticker;
      }
    }
  }

  lemma {:induction false} RunMember(setup: Setup, panels: PanelSet, rebal: seq<Date>, n: nat, t: Trade)
    requires Honest(setup, panels) && n <= |rebal| && t in Run(setup, panels, rebal, n)
    ensures exists i :: 0 <= i < n && t in Rebalance(setup, panels, rebal[i], NextOf(rebal, i))
  {
    if t !in Rebalance(setup, panels, rebal[n - 1], NextOf(rebal, n - 1)) {
      RunMember(setup, panels, rebal, n - 1, t);
    }
  }

  /** Of two trades in one ticker the earlier in the list is closed strictly before the later opens. */
  ghost predicate NeverOverlaps(trades: seq<Trade>) {
    forall p, q :: 0 <= p < q < |trades| && trades[p].ticker == trades[q].ticker
      ==> trades[p].exitDate < trades[q].entryDate
  }

  lemma Joined(before: seq<Trade>, last: seq<Trade>)
    requires NeverOverlaps(before)
    requires forall p, q :: 0 <= p < q < |last| ==> last[p].ticker != last[q].ticker
    requires forall t <- before, u <- last :: t.ticker == u.ticker ==> t.exitDate < u.entryDate
    ensures NeverOverlaps(before + last)
  {
    var all := before + last;
    forall p, q | 0 <= p < q < |all| && all[p].ticker == all[q].ticker ensures all[p].exitDate < all[q].entryDate {
      if q >= |before| {
        assert all[q] == last[q - |before|] && p < |before|;
        assert all[p] in before && all[q] in last;
      }
    }
  }

  /** No two trades of the run hold the same ticker at the same time: the list is ordered so that an
      earlier trade of a ticker is closed strictly before a later one is opened. */
  lemma {:induction false} RunNeverOverlaps(setup: Setup, panels: PanelSet, rebal: seq<Date>, n: nat)
    requires Proper(panels) && Honest(setup, panels) && StrictlyIncreasing(rebal) && n <= |rebal|
    requires forall ts: Date :: DistinctTickers(setup.detect(Trimmed(panels, ts), ts))
    ensures NeverOverlaps(Run(setup, panels, rebal, n))
  {
    if n > 0 {
      var ts, next := rebal[n - 1], NextOf(rebal, n - 1);
      var before, last := Run(setup, panels, rebal, n - 1), Rebalance(setup, panels, ts, next);
      var cands := setup.detect(Trimmed(panels, ts), ts);
      RunNeverOverlaps(setup, panels, rebal, n - 1);
      assert DistinctTickers(cands);
      OneTradePerTicker(setup, panels, cands, ts, next);
      forall t <- before, u <- last | t.ticker == u.ticker ensures t.exitDate < u.entryDate {
        RunMember(setup, panels, rebal, n - 1, t);
        var i :| 0 <= i < n - 1 && t in Rebalance(setup, panels, rebal[i], NextOf(rebal, i));
        HoldsNeverOverlap(setup, panels, rebal, i, n - 1, t, u);
      }
      Joined(before, last);
    }
  }

  // ── The trades, over the bars ────────────────────────────────────────────

  /** The first bar dated on or after the next rebalance, or the last bar when there is none or no next. */
  predicate ExitBar(panel: Panel, next: Option<Date>, exit: nat) {
    && exit < |panel|
    && (next.None? ==> exit == |panel| - 1)
    && (next.Some? ==>
          && (forall j :: 0 <= j < exit ==> panel[j].date < next.value)
          && (exit == |panel| - 1 || panel[exit].date >= next.value))
  }

  /** A long position from the open of the bar after `k`, the bar of the rebalance, to the close of a later
      exit bar, both prices worsened by the slippage. */
  predicate HeldAt(setup: Setup, cand: Candidate, panel: Panel, ts: Date, next: Option<Date>, t: Trade, k: nat,
      exit: nat)
  {
    && cand.forecast > 0.0
    && k + 1 < exit < |panel| && panel[k].date == ts && ExitBar(panel, next, exit)
    && t.ticker == cand.ticker && t.forecast == cand.forecast
    && t.entryDate == panel[k + 1].date && t.exitDate == panel[exit].date
    && Grows(panel[k + 1].open, t.entryPrice, Slip(setup.costs, cand.ticker)) && t.entryPrice > 0.0
    && Grows(panel[exit].close, t.exitPrice, -Slip(setup.costs, cand.ticker))
    && Grows(t.entryPrice, t.exitPrice, t.pnl)
  }

  predicate Held(setup: Setup, cand: Candidate, panel: Panel, ts: Date, next: Option<Date>, t: Trade) {
    exists k: nat, exit: nat | k < |panel| && exit < |panel| :: HeldAt(setup, cand, panel, ts, next, t, k, exit)
  }

  lemma ExitBarIff(panel: Panel, next: Option<Date>, exit: nat)
    requires panel != []
    ensures ExitBar(panel, next, exit) <==> exit == ExitIndex(panel, next)
  {
  }

  lemma PriceIff(px: real, rate: real, got: real)
    ensures Grows(px, got, rate) <==> got == Price(px, 1.0 + rate)
  {
  }

  lemma TradeAt(setup: Setup, cand: Candidate, panel: Panel, ts: Date, next: Option<Date>, t: Trade, k: nat)
    requires Find(panel, ts) == Some(k)
    ensures TradeOf(setup, cand, panel, ts, next) == Some(t)
       <==> HeldAt(setup, cand, panel, ts, next, t, k, ExitIndex(panel, next))
  {
    var exit, slip := ExitIndex(panel, next), SlippagePerSide(setup.costs, cand.ticker);
    ExitBarIff(panel, next, exit);
    if cand.forecast > 0.0 && k + 1 < exit {
      PriceIff(panel[k + 1].open, slip, t.entryPrice);
      PriceIff(panel[exit].close, -slip, t.exitPrice);
      if t.entryPrice > 0.0 {
        GrowsIff(t.entryPrice, t.exitPrice, t.pnl);
      }
    }
  }

  /** The trade of a candidate, over the bars and the cost table. */
  lemma TradeIff(setup: Setup, cand: Candidate, panel: Panel, ts: Date, next: Option<Date>, t: Trade)
    requires Sorted(panel)
    ensures TradeOf(setup, cand, panel, ts, next) == Some(t) <==> Held(setup, cand, panel, ts, next, t)
  {
    if Find(panel, ts).Some? {
      TradeAt(setup, cand, panel, ts, next, t, Find(panel, ts).value);
    }
    forall k: nat, exit: nat | HeldAt(setup, cand, panel, ts, next, t, k, exit)
      ensures Find(panel, ts) == Some(k) && exit == ExitIndex(panel, next)
    {
      FindIs(panel, k);
      ExitBarIff(panel, next, exit);
    }
  }

  predicate Traded(setup: Setup, panels: PanelSet, cand: Candidate, ts: Date, next: Option<Date>) {
    cand.ticker in panels.bars && TradeOf(setup, cand, panels.bars[cand.ticker], ts, next).Some?
  }

  lemma TradedIff(setup: Setup, panels: PanelSet, cand: Candidate, ts: Date, next: Option<Date>)
    requires Proper(panels) && cand.ticker in panels.bars
    ensures Traded(setup, panels, cand, ts, next) <==>
      exists t: Trade :: Held(setup, cand, panels.bars[cand.ticker], ts, next, t)
  {
    var panel := panels.bars[cand.ticker];
    forall t: Trade
      ensures TradeOf(setup, cand, panel, ts, next) == Some(t) <==> Held(setup, cand, panel, ts, next, t)
    {
      TradeIff(setup, cand, panel, ts, next, t);
    }
  }

  function TradedAt(setup: Setup, panels: PanelSet, ts: Date, next: Option<Date>): Candidate -> bool {
    (c: Candidate) => Traded(setup, panels, c, ts, next)
  }

  predicate HeldInOrder(setup: Setup, panels: PanelSet, traded: seq<Candidate>, ts: Date, next: Option<Date>,
      trades: seq<Trade>)
  {
    && |trades| == |traded|
    && forall i :: 0 <= i < |trades| ==>
         && traded[i].ticker in panels.bars
         && Held(setup, traded[i], panels.bars[traded[i].ticker], ts, next, trades[i])
  }

  /** The trades of a rebalance are those of the candidates that can be held, one for one and in order. */
  lemma {:induction false} TradesAre(setup: Setup, panels: PanelSet, cands: seq<Candidate>, ts: Date,
      next: Option<Date>)
    requires Proper(panels) && AllKnown(panels, cands)
    ensures HeldInOrder(setup, panels, Filter(cands, TradedAt(setup, panels, ts, next)), ts, next,
      TradesOf(setup, panels, cands, ts, next))
  {
    if cands != [] {
      var front, last := cands[..|cands| - 1], cands[|cands| - 1];
      assert cands == front + [last];
      TradesAre(setup, panels, front, ts, next);
      FilterSnoc(front, last, TradedAt(setup, panels, ts, next));
      var t := TradeOf(setup, last, panels.bars[last.ticker], ts, next);
      if t.Some? {
        TradeIff(setup, last, panels.bars[last.ticker], ts, next, t.value);
      }
    }
  }

  /** The detector is shown every name with a bar up to the rebalance, with exactly those bars. */
  lemma ShownIs(panels: PanelSet, ts: Date, ticker: Ticker)
    requires Proper(panels)
    ensures ticker in Trimmed(panels, ts).bars <==>
      ticker in panels.bars && exists b <- panels.bars[ticker] :: b.date <= ts
    ensures ticker in Trimmed(panels, ts).bars ==>
      Trimmed(panels, ts).bars[ticker] == Filter(panels.bars[ticker], (b: Bar) => b.date <= ts)
  {
    if ticker in panels.bars {
      FilterMembers(panels.bars[ticker], (b: Bar) => b.date <= ts);
      var shown := Trim(panels.bars[ticker], ts);
      if shown != [] {
        assert shown[0] in shown;
      }
    }
  }
}
