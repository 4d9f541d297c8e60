/** What the two momentum rebalances score, pick and buy, said of the bars, costs and beats themselves. */
module MomentumBook {
  import opened Prelude
  import opened Panels
  import opened Momentum

  // ── Scores ───────────────────────────────────────────────────────────────

  /** Bar `k` is the one at `rd`, with enough bars before it; the name is tradeable at the skipped close, and
      `score` is the return up to there from a positive close `lookback` bars earlier. */
  predicate ReturnsAt(inp: Inputs, ticker: Ticker, panel: Panel, rd: Date, score: real, k: nat) {
    && k < |panel| && panel[k].date == rd && k >= inp.params.skip + inp.params.lookback
    && var now, past := panel[k - inp.params.skip].close, panel[k - inp.params.skip - inp.params.lookback].close;
      past > 0.0 && inp.tradeable(ticker, now) && Grows(past, now, score)
  }

  predicate Returns(inp: Inputs, ticker: Ticker, panel: Panel, rd: Date, score: real) {
    exists k: nat | k < |panel| :: ReturnsAt(inp, ticker, panel, rd, score, k)
  }

  lemma ScoreAt(inp: Inputs, ticker: Ticker, panel: Panel, rd: Date, score: real, k: nat)
    requires Find(panel, rd) == Some(k)
    ensures ScoreOf(inp, ticker, panel, rd) == Some(score) <==> ReturnsAt(inp, ticker, panel, rd, score, k)
  {
    if k >= inp.params.skip + inp.params.lookback {
      var now, past := panel[k - inp.params.skip].close, panel[k - inp.params.skip - inp.params.lookback].close;
      assert ScoreOf(inp, ticker, panel, rd) == ScoreFrom(inp, ticker, now, past);
      if past > 0.0 {
        GrowsIff(past, now, score);
      }
    }
  }

  lemma ScoreIff(inp: Inputs, ticker: Ticker, panel: Panel, rd: Date, score: real)
    requires Sorted(panel)
    ensures ScoreOf(inp, ticker, panel, rd) == Some(score) <==> Returns(inp, ticker, panel, rd, score)
  {
    if Find(panel, rd).Some? {
      ScoreAt(inp, ticker, panel, rd, score, Find(panel, rd).value);
    }
    forall k: nat | ReturnsAt(inp, ticker, panel, rd, score, k) ensures Find(panel, rd) == Some(k) {
      FindIs(panel, k);
    }
  }

  predicate HasReturn(inp: Inputs, ticker: Ticker, rd: Date) {
    ticker in inp.panels.bars && ScoreOf(inp, ticker, inp.panels.bars[ticker], rd).Some?
  }

  /** A name is scored exactly when it has a return, and the scores come in the order of the panel keys. */
  lemma {:induction false} ScoresAre(inp: Inputs, names: seq<Ticker>, rd: Date)
    requires Proper(inp.panels) && forall t <- names :: t in inp.panels.bars
    ensures var scores := Scores(inp, names, rd);
      var scored := Filter(names, (t: Ticker) => HasReturn(inp, t, rd));
      && |scores| == |scored|
      && forall i :: 0 <= i < |scores| ==>
           && scores[i].ticker == scored[i] && scored[i] in inp.panels.bars
           && Returns(inp, scored[i], inp.panels.bars[scored[i]], rd, scores[i].score)
  {
    if names != [] {
      var k := |names| - 1;
      var front, last, panel := names[..k], names[k], inp.panels.bars[names[k]];
      ScoresAre(inp, front, rd);
      assert names == front + [last];
      FilterSnoc(front, last, (t: Ticker) => HasReturn(inp, t, rd));
      if ScoreOf(inp, last, panel, rd).Some? {
        ScoreIff(inp, last, panel, rd, ScoreOf(inp, last, panel, rd).value);
      }
    }
  }

  lemma HasReturnIff(inp: Inputs, ticker: Ticker, rd: Date)
    requires Proper(inp.panels) && ticker in inp.panels.bars
    ensures HasReturn(inp, ticker, rd) <==>
      exists score: real :: Returns(inp, ticker, inp.panels.bars[ticker], rd, score)
  {
    var panel := inp.panels.bars[ticker];
    forall score: real
      ensures ScoreOf(inp, ticker, panel, rd) == Some(score) <==> Returns(inp, ticker, panel, rd, score)
    {
      ScoreIff(inp, ticker, panel, rd, score);
    }
  }

  // ── The decile ───────────────────────────────────────────────────────────

  function Share(count: nat, pct: real): real {
    count as real * pct
  }

  /** Some when there are any, no more than the larger of one and the fraction of them, and no fewer than all
      of them or that fraction rounded down. */
  predicate DecileSize(taken: nat, count: nat, pct: real) {
    && taken <= count && (count > 0 ==> taken > 0)
    && (taken > 1 ==> taken as real <= Share(count, pct))
    && (taken < count ==> taken as real > Share(count, pct) - 1.0)
  }

  /** In descending order, and every one scores at least as high as whatever is left out. */
  ghost predicate BestOf(top: seq<Scored>, scores: seq<Scored>) {
    && Descending(top) && multiset(top) <= multiset(scores)
    && forall x <- top, y <- scores :: y !in top ==> x.score >= y.score
  }

  lemma TopSize(ranked: seq<Scored>, pct: real)
    ensures DecileSize(|Top(ranked, pct)|, |ranked|, pct)
  {
    assert (|ranked| as real * pct).Floor as real <= Share(|ranked|, pct);
  }

  lemma PrefixSubset<T>(a: seq<T>, b: seq<T>)
    requires a <= b
    ensures multiset(a) <= multiset(b)
  {
    assert b == a + b[|a|..];
  }

  lemma BetterThanRest(ranked: seq<Scored>, top: seq<Scored>, x: Scored, y: Scored)
    requires Descending(ranked) && top <= ranked && x in top && y in ranked && y !in top
    ensures x.score >= y.score
  {
    var i :| 0 <= i < |top| && top[i] == x;
    var j :| 0 <= j < |ranked| && ranked[j] == y;
    assert ranked[i] == x;
    assert forall l :: 0 <= l < |top| ==> top[l] in top && top[l] == ranked[l];
  }

  lemma RankedIsDescending(scores: seq<Scored>)
    ensures Descending(Ranked(scores)) && multiset(Ranked(scores)) == multiset(scores)
  {
    RankedIsStableSort(scores, 0.0);
  }

  lemma PrefixIsBest(scores: seq<Scored>, top: seq<Scored>)
    requires top <= Ranked(scores)
    ensures BestOf(top, scores)
  {
    RankedIsDescending(scores);
    PrefixSubset(top, Ranked(scores));
    forall x <- top, y <- scores | y !in top ensures x.score >= y.score {
      assert y in multiset(Ranked(scores));
      BetterThanRest(Ranked(scores), top, x, y);
    }
  }

  /** How many of the scored names the decile takes, and which. */
  lemma TopDecileIs(inp: Inputs, rd: Date)
    requires Proper(inp.panels)
    ensures DecileSize(|TopDecile(inp, rd)|, |Scores(inp, inp.panels.names, rd)|, inp.params.topDecile)
    ensures BestOf(TopDecile(inp, rd), Scores(inp, inp.panels.names, rd))
  {
    var scores := Scores(inp, inp.panels.names, rd);
    RankedMembers(scores);
    TopSize(Ranked(scores), inp.params.topDecile);
    PrefixIsBest(scores, TopDecile(inp, rd));
  }

  // ── Trades ───────────────────────────────────────────────────────────────

  /** Picked at bar `k`, a name is bought at the bar after it and sold `hold` bars after that, or at the last
      bar there is, which must be a later one. */
  predicate HeldFrom(panel: Panel, rd: Date, hold: nat, k: nat, exit: nat) {
    && k + 1 < exit < |panel| && panel[k].date == rd
    && (exit == k + 1 + hold || (exit == |panel| - 1 && exit < k + 1 + hold))
  }

  /** Bought at an open worsened by the slippage, sold at a close worsened by it, the return being what the
      entry price grows by to the exit price. */
  predicate BoughtAt(inp: Inputs, x: Scored, panel: Panel, rd: Date, t: Trade, k: nat, exit: nat) {
    && HeldFrom(panel, rd, inp.params.hold, k, exit)
    && t.ticker == x.ticker && t.score == x.score
    && t.entryDate == panel[k + 1].date && t.exitDate == panel[exit].date
    && Grows(panel[k + 1].open, t.entryPrice, Slip(inp.costs, x.ticker)) && t.entryPrice > 0.0
    && Grows(panel[exit].close, t.exitPrice, -Slip(inp.costs, x.ticker))
    && Grows(t.entryPrice, t.exitPrice, t.pnl)
  }

  predicate Bought(inp: Inputs, x: Scored, rd: Date, t: Trade) {
    x.ticker in inp.panels.bars &&
    var panel := inp.panels.bars[x.ticker];
    exists k: nat, exit: nat | k < |panel| && exit < |panel| :: BoughtAt(inp, x, panel, rd, t, k, exit)
  }

  lemma SlippedIff(px: real, slip: real, got: real)
    ensures Grows(px, got, slip) <==> got == EntryPrice(px, slip)
    ensures Grows(px, got, -slip) <==> got == ExitPrice(px, slip)
  {
  }

  lemma PnlIff(entryPx: real, exitPx: real, pnl: real)
    requires entryPx > 0.0
    ensures Grows(entryPx, exitPx, pnl) <==> pnl == Pnl(entryPx, exitPx)
  {
    GrowsIff(entryPx, exitPx, pnl);
  }

  lemma HeldIff(panel: Panel, rd: Date, hold: nat, k: nat, exit: nat)
    requires Find(panel, rd) == Some(k)
    ensures HeldBetween(panel, rd, hold) == Some((k + 1, exit)) <==> HeldFrom(panel, rd, hold, k, exit)
  {
  }

  lemma TradeAt(inp: Inputs, x: Scored, panel: Panel, rd: Date, t: Trade, k: nat, exit: nat)
    requires Find(panel, rd) == Some(k) && HeldBetween(panel, rd, inp.params.hold) == Some((k + 1, exit))
    ensures TradeOf(inp, x, panel, rd) == Some(t) <==> BoughtAt(inp, x, panel, rd, t, k, exit)
  {
    var slip := SlippagePerSide(inp.costs, x.ticker);
    SlippedIff(panel[k + 1].open, slip, t.entryPrice);
    SlippedIff(panel[exit].close, slip, t.exitPrice);
    if t.entryPrice > 0.0 {
      PnlIff(t.entryPrice, t.exitPrice, t.pnl);
    }
    HeldIff(panel, rd, inp.params.hold, k, exit);
  }

  /** The trade of a pick, over the bars and the cost table. */
  lemma TradeIff(inp: Inputs, x: Scored, rd: Date, t: Trade)
    requires Proper(inp.panels) && x.ticker in inp.panels.bars && Find(inp.panels.bars[x.ticker], rd).Some?
    ensures TradeOf(inp, x, inp.panels.bars[x.ticker], rd) == Some(t) <==> Bought(inp, x, rd, t)
  {
    var panel := inp.panels.bars[x.ticker];
    var k, span := Find(panel, rd).value, HeldBetween(panel, rd, inp.params.hold);
    if span.Some? {
      TradeAt(inp, x, panel, rd, t, k, span.value.1);
    }
    forall i: nat, exit: nat | BoughtAt(inp, x, panel, rd, t, i, exit)
      ensures i == k && span == Some((k + 1, exit))
    {
      FindIs(panel, i);
      HeldIff(panel, rd, inp.params.hold, k, exit);
    }
  }

  predicate OpensAt(inp: Inputs, x: Scored, panel: Panel, rd: Date, k: nat, exit: nat) {
    HeldFrom(panel, rd, inp.params.hold, k, exit) && EntryPrice(panel[k + 1].open, Slip(inp.costs, x.ticker)) > 0.0
  }

  /** The pick can be bought, at a positive price, and sold. */
  predicate Opens(inp: Inputs, x: Scored, rd: Date) {
    x.ticker in inp.panels.bars &&
    var panel := inp.panels.bars[x.ticker];
    exists k: nat, exit: nat | k < |panel| && exit < |panel| :: OpensAt(inp, x, panel, rd, k, exit)
  }

  lemma OpensIff(inp: Inputs, x: Scored, rd: Date)
    requires Proper(inp.panels) && x.ticker in inp.panels.bars && Find(inp.panels.bars[x.ticker], rd).Some?
    ensures Opens(inp, x, rd) <==> TradeOf(inp, x, inp.panels.bars[x.ticker], rd).Some?
  {
    var panel := inp.panels.bars[x.ticker];
    var k, span := Find(panel, rd).value, HeldBetween(panel, rd, inp.params.hold);
    if span.Some? {
      HeldIff(panel, rd, inp.params.hold, k, span.value.1);
    }
    if TradeOf(inp, x, panel, rd).Some? {
      assert OpensAt(inp, x, panel, rd, k, span.value.1);
    }
    forall i: nat, exit: nat | OpensAt(inp, x, panel, rd, i, exit) ensures i == k && span == Some((k + 1, exit)) {
      FindIs(panel, i);
      HeldIff(panel, rd, inp.params.hold, k, exit);
    }
  }

  /** The trades of a list of picks are those of the picks that open, one for one and in order. */
  ghost predicate TradedInOrder(inp: Inputs, buys: seq<Scored>, rd: Date, trades: seq<Trade>) {
    |trades| == |buys| && forall i :: 0 <= i < |trades| ==> Bought(inp, buys[i], rd, trades[i])
  }

  lemma {:induction false} TradesAre(inp: Inputs, picks: seq<Scored>, rd: Date)
    requires Proper(inp.panels) && Pickable(inp, picks, rd)
    ensures TradedInOrder(inp, Filter(picks, (x: Scored) => Opens(inp, x, rd)), rd, TradesOf(inp, picks, rd))
  {
    if picks != [] {
      var front, x := picks[..|picks| - 1], picks[|picks| - 1];
      TradesAre(inp, front, rd);
      assert picks == front + [x];
      FilterSnoc(front, x, (y: Scored) => Opens(inp, y, rd));
      OpensIff(inp, x, rd);
      var t := TradeOf(inp, x, inp.panels.bars[x.ticker], rd);
      if t.Some? {
        TradeIff(inp, x, rd, t.value);
      }
    }
  }

  // ── The overlay ──────────────────────────────────────────────────────────

  /** A positive beat in the ninety days up to the date. */
  predicate BeatBefore(inp: Inputs, ticker: Ticker, asOf: Date) {
    ticker in inp.beats && exists e <- inp.beats[ticker] :: 0 <= asOf - e.0 <= 90 && e.1 > 0.0
  }

  lemma BeatIff(inp: Inputs, ticker: Ticker, asOf: Date)
    ensures HasRecentBeat(inp, ticker, asOf) <==> BeatBefore(inp, ticker, asOf)
  {
    if BeatBefore(inp, ticker, asOf) {
      var e :| e in inp.beats[ticker] && 0 <= asOf - e.0 <= 90 && e.1 > 0.0;
      assert asOf - EARNINGS_LOOKBACK_DAYS <= e.0 <= asOf;
    }
  }

  predicate ClosesOf(bars: seq<Bar>, closes: seq<real>) {
    |closes| == |bars| && forall i :: 0 <= i < |bars| ==> closes[i] == bars[i].close
  }

  /** The sixty bars up to bar `k`, or all there are. */
  function LastSixty(panel: Panel, k: nat): seq<Bar>
    requires k < |panel|
  {
    panel[if k < 60 then 0 else k - 59..k + 1]
  }

  /** The volatility realized over the closes of the sixty bars up to the rebalance. */
  ghost predicate SigmaBefore(inp: Inputs, panel: Panel, rd: Date, sigma: real) {
    exists k: nat, closes: seq<real> | k < |panel| && ClosesOf(LastSixty(panel, k), closes) ::
      panel[k].date == rd && sigma == inp.realized(closes)
  }

  predicate Times(a: real, b: real, product: real) {
    product == a * b
  }

  /** A legacy buy with its return scaled by the volatility before it. */
  ghost predicate ScaledBuy(inp: Inputs, x: Scored, rd: Date, v: VolTrade) {
    && Bought(inp, x, rd, Unscaled(v))
    && SigmaBefore(inp, inp.panels.bars[x.ticker], rd, v.sigma)
    && v.volScale == VolScale(v.sigma) && Times(v.rawPnl, v.volScale, v.pnl)
  }

  lemma SigmaIs(inp: Inputs, panel: Panel, rd: Date)
    requires Find(panel, rd).Some?
    ensures SigmaBefore(inp, panel, rd, SigmaAt(inp, panel, rd))
  {
    var k := Find(panel, rd).value;
    var closes := Closes(LastSixty(panel, k));
    assert ClosesOf(LastSixty(panel, k), closes);
    assert SigmaAt(inp, panel, rd) == inp.realized(closes);
  }

  lemma SizedIs(rawPnl: real, volScale: real)
    ensures Times(rawPnl, volScale, ScaledPnl(rawPnl, volScale))
  {
  }

  lemma ScaledIs(inp: Inputs, x: Scored, rd: Date, t: Trade)
    requires Proper(inp.panels) && x.ticker in inp.panels.bars && Find(inp.panels.bars[x.ticker], rd).Some?
    requires TradeOf(inp, x, inp.panels.bars[x.ticker], rd) == Some(t)
    ensures VolTradeOf(inp, x, rd).Some? && ScaledBuy(inp, x, rd, VolTradeOf(inp, x, rd).value)
  {
    TradeIff(inp, x, rd, t);
    SigmaIs(inp, inp.panels.bars[x.ticker], rd);
    var v := Scaled(inp, t, rd);
    assert Unscaled(v) == t;
    SizedIs(v.rawPnl, v.volScale);
  }

  ghost predicate ScaledInOrder(inp: Inputs, buys: seq<Scored>, rd: Date, trades: seq<VolTrade>) {
    |trades| == |buys| && forall i :: 0 <= i < |trades| ==> ScaledBuy(inp, buys[i], rd, trades[i])
  }

  function BeatAndOpens(inp: Inputs, rd: Date): Scored -> bool {
    (x: Scored) => BeatBefore(inp, x.ticker, rd) && Opens(inp, x, rd)
  }

  lemma ScaledSnoc(inp: Inputs, kept: seq<Scored>, buys: seq<Scored>, x: Scored, rd: Date)
    requires Proper(inp.panels) && Pickable(inp, kept, rd)
    requires x.ticker in inp.panels.bars && Find(inp.panels.bars[x.ticker], rd).Some?
    requires ScaledInOrder(inp, buys, rd, VolTradesOf(inp, kept, rd))
    ensures Pickable(inp, kept + [x], rd)
    ensures ScaledInOrder(inp, buys + if Opens(inp, x, rd) then [x] else [], rd, VolTradesOf(inp, kept + [x], rd))
  {
    OpensIff(inp, x, rd);
    VolTradesSnoc(inp, kept, x, rd);
    var t := TradeOf(inp, x, inp.panels.bars[x.ticker], rd);
    if t.Some? {
      ScaledIs(inp, x, rd, t.value);
    }
  }

  /** What the overlay trades of a list of picks, and what it should. */
  ghost predicate OverlayBuys(inp: Inputs, picks: seq<Scored>, rd: Date)
    requires Pickable(inp, picks, rd)
  {
    BeatsPickable(inp, picks, rd);
    ScaledInOrder(inp, Filter(picks, BeatAndOpens(inp, rd)), rd, VolTradesOf(inp, Filter(picks, WithBeat(inp, rd)), rd))
  }

  lemma OverlayBuysSnoc(inp: Inputs, picks: seq<Scored>, x: Scored, rd: Date)
    requires Proper(inp.panels) && Pickable(inp, picks, rd) && Pickable(inp, [x], rd) && OverlayBuys(inp, picks, rd)
    ensures Pickable(inp, picks + [x], rd) && OverlayBuys(inp, picks + [x], rd)
  {
    assert x in [x];
    BeatsPickable(inp, picks, rd);
    FilterSnoc(picks, x, WithBeat(inp, rd));
    FilterSnoc(picks, x, BeatAndOpens(inp, rd));
    BeatIff(inp, x.ticker, rd);
    var kept := Filter(picks, WithBeat(inp, rd));
    if HasRecentBeat(inp, x.ticker, rd) {
      ScaledSnoc(inp, kept, Filter(picks, BeatAndOpens(inp, rd)), x, rd);
    } else {
      assert kept + [] == kept;
    }
  }

  /** The overlay buys, in the order of the picks, those that open among the ones with a recent beat. */
  lemma {:induction false} VolTradesAre(inp: Inputs, picks: seq<Scored>, rd: Date)
    requires Proper(inp.panels) && Pickable(inp, picks, rd)
    ensures OverlayBuys(inp, picks, rd)
  {
    if picks != [] {
      var k := |picks| - 1;
      assert picks == picks[..k] + [picks[k]] && picks[k] in picks;
      VolTradesAre(inp, picks[..k], rd);
      OverlayBuysSnoc(inp, picks[..k], picks[k], rd);
    }
  }

  // ── Whole runs ───────────────────────────────────────────────────────────

  /** What the legacy rebalance, and the overlay's, buy at one date. */
  function Month(inp: Inputs, rd: Date): seq<Trade>
    requires forall t <- inp.panels.names :: t in inp.panels.bars
  {
    TopIsPickable(inp, rd);
    TradesOf(inp, TopDecile(inp, rd), rd)
  }

  function OverlayMonth(inp: Inputs, rd: Date): seq<VolTrade>
    requires forall t <- inp.panels.names :: t in inp.panels.bars
  {
    TopIsPickable(inp, rd);
    BeatsPickable(inp, TopDecile(inp, rd), rd);
    VolTradesOf(inp, Filter(TopDecile(inp, rd), WithBeat(inp, rd)), rd)
  }

  lemma NextMonth(inp: Inputs, rebalances: seq<Date>, rd: Date)
    requires forall t <- inp.panels.names :: t in inp.panels.bars
    ensures LegacyRun(inp, rebalances + [rd]) == LegacyRun(inp, rebalances) + Month(inp, rd)
    ensures OverlayRun(inp, rebalances + [rd]) == OverlayRun(inp, rebalances) + OverlayMonth(inp, rd)
  {
    assert (rebalances + [rd])[..|rebalances|] == rebalances;
    TopIsPickable(inp, rd);
    VolIsOverlaidLegacy(inp, TopDecile(inp, rd), rd);
  }

  /** Both runs go month by month: each rebalance contributes what it buys, at its place. */
  lemma {:induction false} RunsByMonth(inp: Inputs, before: seq<Date>, rd: Date, after: seq<Date>)
    requires forall t <- inp.panels.names :: t in inp.panels.bars
    ensures LegacyRun(inp, before) + Month(inp, rd) <= LegacyRun(inp, before + [rd] + after)
    ensures OverlayRun(inp, before) + OverlayMonth(inp, rd) <= OverlayRun(inp, before + [rd] + after)
    ensures after == [] ==>
      && LegacyRun(inp, before + [rd] + after) == LegacyRun(inp, before) + Month(inp, rd)
      && OverlayRun(inp, before + [rd] + after) == OverlayRun(inp, before) + OverlayMonth(inp, rd)
  {
    if after == [] {
      assert before + [rd] + after == before + [rd];
      NextMonth(inp, before, rd);
    } else {
      var front, last := after[..|after| - 1], after[|after| - 1];
      assert before + [rd] + after == before + [rd] + front + [last];
      RunsByMonth(inp, before, rd, front);
      NextMonth(inp, before + [rd] + front, last);
    }
  }
}
