/** The legacy 12-1 momentum rebalance and its separately written vol-managed overlay variant. */
module Momentum {
  import opened Prelude
  import opened Panels

  /** None of the defaults is negative; what a negative skip does is in NoLookAhead.dfy. */
  datatype Params = Params(lookback: nat, skip: nat, hold: nat, topDecile: real)

  /** What both backtests read. `tradeable` stands for is_tradeable_common_stock, `realized` for the
      realized-volatility estimator over a window of closes; `beats` are (event date, magnitude) rows. */
  datatype Inputs = Inputs(
    panels: PanelSet,
    costs: map<Ticker, real>,
    beats: map<Ticker, seq<(Date, real)>>,
    tradeable: (Ticker, real) -> bool,
    realized: seq<real> -> real,
    params: Params)

  datatype Trade = Trade(
    ticker: Ticker, entryDate: Date, entryPrice: real, exitDate: Date, exitPrice: real, pnl: real, score: real)

  datatype VolTrade = VolTrade(
    ticker: Ticker, entryDate: Date, entryPrice: real, exitDate: Date, exitPrice: real,
    rawPnl: real, volScale: real, pnl: real, score: real, sigma: real)

  datatype Scored = Scored(ticker: Ticker, score: real)

  const SLIPPAGE_PER_SIDE := 0.0005
  const TARGET_ANNUAL_VOL := 0.40
  const VOL_WINDOW := 60
  const VOL_SCALE_LOW := 0.5
  const VOL_SCALE_HIGH := 2.0
  const VOL_DEGENERATE_FLOOR := 0.000001
  const EARNINGS_LOOKBACK_DAYS := 90

  function SlippagePerSide(costs: map<Ticker, real>, ticker: Ticker): real {
    if ticker in costs then costs[ticker] / 2.0 else SLIPPAGE_PER_SIDE
  }

  // ── Scores and ranking ───────────────────────────────────────────────────

  function ReturnOver(now: real, past: real): real
    requires past > 0.0
  {
    now / past - 1.0
  }

  function ScoreFrom(inp: Inputs, ticker: Ticker, now: real, past: real): Option<real> {
    if past <= 0.0 || !inp.tradeable(ticker, now) then None else Some(ReturnOver(now, past))
  }

  /** The 12-1 return of one panel at the rebalance date, if the name is eligible. */
  function ScoreOf(inp: Inputs, ticker: Ticker, panel: Panel, rd: Date): Option<real> {
    match Find(panel, rd)
    case None => None
    case Some(idx) =>
      if idx < inp.params.skip + inp.params.lookback then None
      else
        ScoreFrom(inp, ticker, panel[idx - inp.params.skip].close,
          panel[idx - inp.params.skip - inp.params.lookback].close)
  }

  /** The `scores` dict over a prefix of the panel keys, in insertion order. */
  function Scores(inp: Inputs, names: seq<Ticker>, rd: Date): seq<Scored>
    requires forall t <- names :: t in inp.panels.bars
  {
    if names == [] then []
    else
      var k := |names| - 1;
      Scores(inp, names[..k], rd)
      + match ScoreOf(inp, names[k], inp.panels.bars[names[k]], rd)
        case None => []
        case Some(s) => [Scored(names[k], s)]
  }

  /** The overlay's own scoring of one panel: an index test, then a price test, then the ratio. */
  function OverlayScore(inp: Inputs, ticker: Ticker, panel: Panel, rd: Date): seq<Scored> {
    var at := Find(panel, rd);
    if at.Some? && at.value - inp.params.skip - inp.params.lookback >= 0 then
      var now := panel[at.value - inp.params.skip].close;
      var past := panel[at.value - inp.params.skip - inp.params.lookback].close;
      if past > 0.0 && inp.tradeable(ticker, now) then [Scored(ticker, now / past - 1.0)] else []
    else []
  }

  function OverlayScores(inp: Inputs, names: seq<Ticker>, rd: Date): seq<Scored>
    requires forall t <- names :: t in inp.panels.bars
  {
    if names == [] then []
    else
      var k := |names| - 1;
      OverlayScores(inp, names[..k], rd) + OverlayScore(inp, names[k], inp.panels.bars[names[k]], rd)
  }

  lemma OverlayScoresSnoc(inp: Inputs, names: seq<Ticker>, i: nat, rd: Date)
    requires i < |names| && forall t <- names :: t in inp.panels.bars
    ensures OverlayScores(inp, names[..i + 1], rd)
         == OverlayScores(inp, names[..i], rd) + OverlayScore(inp, names[i], inp.panels.bars[names[i]], rd)
  {
    assert names[..i + 1][..i] == names[..i];
  }

  /** The two scoring loops, written twice, give the same scores in the same order. */
  lemma {:induction false} OverlayScoresAreLegacy(inp: Inputs, names: seq<Ticker>, rd: Date)
    requires forall t <- names :: t in inp.panels.bars
    ensures OverlayScores(inp, names, rd) == Scores(inp, names, rd)
  {
    if names != [] {
      OverlayScoresAreLegacy(inp, names[..|names| - 1], rd);
    }
  }

  /** Inserts after every entry with an equal or higher score. */
  function Insert(ranked: seq<Scored>, x: Scored): seq<Scored> {
    if ranked == [] || ranked[|ranked| - 1].score >= x.score then ranked + [x]
    else Insert(ranked[..|ranked| - 1], x) + [ranked[|ranked| - 1]]
  }

  /** `sorted(..., key=score, reverse=True)`: descending and stable. */
  function Ranked(scores: seq<Scored>): seq<Scored> {
    if scores == [] then [] else Insert(Ranked(scores[..|scores| - 1]), scores[|scores| - 1])
  }

  ghost predicate Descending(s: seq<Scored>) {
    forall i, j :: 0 <= i < j < |s| ==> s[i].score >= s[j].score
  }

  function WithScore(v: real): Scored -> bool {
    (x: Scored) => x.score == v
  }

  lemma {:induction false} InsertMultiset(ranked: seq<Scored>, x: Scored)
    ensures multiset(Insert(ranked, x)) == multiset(ranked) + multiset{x}
  {
    if !(ranked == [] || ranked[|ranked| - 1].score >= x.score) {
      var k := |ranked| - 1;
      InsertMultiset(ranked[..k], x);
      assert ranked == ranked[..k] + [ranked[k]];
    }
  }

  lemma {:induction false} InsertMembers(ranked: seq<Scored>, x: Scored)
    ensures forall y <- Insert(ranked, x) :: y == x || y in ranked
  {
    if !(ranked == [] || ranked[|ranked| - 1].score >= x.score) {
      InsertMembers(ranked[..|ranked| - 1], x);
    }
  }

  lemma {:induction false} InsertDescends(ranked: seq<Scored>, x: Scored)
    requires Descending(ranked)
    ensures Descending(Insert(ranked, x))
  {
    if !(ranked == [] || ranked[|ranked| - 1].score >= x.score) {
      var front, last := ranked[..|ranked| - 1], ranked[|ranked| - 1];
      InsertDescends(front, x);
      InsertMembers(front, x);
      assert forall y <- front :: y.score >= last.score;
      assert forall y <- Insert(front, x) :: y.score >= last.score;
    }
  }

  lemma Commute<T>(a: seq<T>, b: seq<T>, c: seq<T>)
    requires b == [] || c == []
    ensures (a + b) + c == (a + c) + b
  {
  }

  /** Ties are kept when `x`, scored above `last`, goes into the entries before it. */
  lemma TiesAcross(front: seq<Scored>, inserted: seq<Scored>, x: Scored, last: Scored, v: real)
    requires Filter(inserted, WithScore(v)) == Filter(front, WithScore(v)) + Filter([x], WithScore(v))
    requires x.score > last.score
    ensures Filter(inserted + [last], WithScore(v)) == Filter(front + [last], WithScore(v)) + Filter([x], WithScore(v))
  {
    FilterAppend(front, [last], WithScore(v));
    FilterAppend(inserted, [last], WithScore(v));
    FilterOne(x, WithScore(v));
    FilterOne(last, WithScore(v));
    Commute(Filter(front, WithScore(v)), Filter([x], WithScore(v)), Filter([last], WithScore(v)));
  }

  lemma {:induction false} InsertKeepsTies(ranked: seq<Scored>, x: Scored, v: real)
    ensures Filter(Insert(ranked, x), WithScore(v)) == Filter(ranked, WithScore(v)) + Filter([x], WithScore(v))
  {
    if ranked == [] || ranked[|ranked| - 1].score >= x.score {
      FilterAppend(ranked, [x], WithScore(v));
    } else {
      var front, last := ranked[..|ranked| - 1], ranked[|ranked| - 1];
      InsertKeepsTies(front, x, v);
      TiesAcross(front, Insert(front, x), x, last, v);
      assert ranked == front + [last];
    }
  }

  /** The ranking is a descending permutation in which ties keep their order. */
  lemma {:induction false} RankedIsStableSort(scores: seq<Scored>, v: real)
    ensures Descending(Ranked(scores))
    ensures multiset(Ranked(scores)) == multiset(scores)
    ensures Filter(Ranked(scores), WithScore(v)) == Filter(scores, WithScore(v))
  {
    if scores != [] {
      var k := |scores| - 1;
      RankedIsStableSort(scores[..k], v);
      InsertMultiset(Ranked(scores[..k]), scores[k]);
      InsertDescends(Ranked(scores[..k]), scores[k]);
      InsertKeepsTies(Ranked(scores[..k]), scores[k], v);
      assert scores == scores[..k] + [scores[k]];
      FilterAppend(scores[..k], [scores[k]], WithScore(v));
    }
  }

  lemma RankedMembers(scores: seq<Scored>)
    ensures |Ranked(scores)| == |scores|
    ensures forall x :: x in Ranked(scores) <==> x in scores
  {
    RankedIsStableSort(scores, 0.0);
    assert |multiset(Ranked(scores))| == |multiset(scores)|;
    forall x ensures x in Ranked(scores) <==> x in scores {
      assert x in multiset(Ranked(scores)) <==> x in multiset(scores);
    }
  }

  /** `ranked[:max(1, int(len(ranked) * top_decile_pct))]`. */
  function Top(ranked: seq<Scored>, pct: real): (top: seq<Scored>)
    ensures top <= ranked
  {
    var wanted := (|ranked| as real * pct).Floor;
    var n := if wanted > 1 then wanted else 1;
    if n < |ranked| then ranked[..n] else ranked
  }

  function TopDecile(inp: Inputs, rd: Date): (top: seq<Scored>)
    requires forall t <- inp.panels.names :: t in inp.panels.bars
  {
    Top(Ranked(Scores(inp, inp.panels.names, rd)), inp.params.topDecile)
  }

  // ── Trades ───────────────────────────────────────────────────────────────

  function EntryPrice(open: real, slip: real): real {
    open * (1.0 + slip)
  }

  function ExitPrice(close: real, slip: real): real {
    close * (1.0 - slip)
  }

  function Pnl(entryPx: real, exitPx: real): real
    requires entryPx > 0.0
  {
    exitPx / entryPx - 1.0
  }

  /** The bars between which a name picked at `rd` is held: next bar to `hold` bars later. */
  function HeldBetween(panel: Panel, rd: Date, hold: nat): (span: Option<(nat, nat)>)
    requires Find(panel, rd).Some?
    ensures span.Some? ==> span.value.0 < span.value.1 < |panel| && span.value.0 == Find(panel, rd).value + 1
  {
    var entry := Find(panel, rd).value + 1;
    if entry >= |panel| then None
    else
      var exit := if entry + hold < |panel| - 1 then entry + hold else |panel| - 1;
      if exit <= entry then None else Some((entry, exit))
  }

  /** The legacy trade of one pick, if it opens. */
  function TradeOf(inp: Inputs, pick: Scored, panel: Panel, rd: Date): Option<Trade>
    requires Find(panel, rd).Some?
  {
    match HeldBetween(panel, rd, inp.params.hold)
    case None => None
    case Some(span) =>
      var slip := SlippagePerSide(inp.costs, pick.ticker);
      var entryPx := EntryPrice(panel[span.0].open, slip);
      var exitPx := ExitPrice(panel[span.1].close, slip);
      if entryPx <= 0.0 then None
      else Some(Trade(pick.ticker, panel[span.0].date, entryPx, panel[span.1].date, exitPx,
                      Pnl(entryPx, exitPx), pick.score))
  }

  /** Every pick is a name with a bar on the rebalance date. */
  predicate Pickable(inp: Inputs, picks: seq<Scored>, rd: Date) {
    forall x <- picks :: x.ticker in inp.panels.bars && Find(inp.panels.bars[x.ticker], rd).Some?
  }

  lemma BeatsPickable(inp: Inputs, picks: seq<Scored>, rd: Date)
    requires Pickable(inp, picks, rd)
    ensures Pickable(inp, Filter(picks, WithBeat(inp, rd)), rd)
  {
    FilterMembers(picks, WithBeat(inp, rd));
  }

  function TradesOf(inp: Inputs, picks: seq<Scored>, rd: Date): seq<Trade>
    requires Pickable(inp, picks, rd)
  {
    if picks == [] then []
    else
      var k := |picks| - 1;
      TradesOf(inp, picks[..k], rd)
      + match TradeOf(inp, picks[k], inp.panels.bars[picks[k].ticker], rd)
        case None => []
        case Some(t) => [t]
  }

  /** `has_recent_earnings_beat` over a ticker's rows; no rows means no beat. */
  predicate HasRecentBeat(inp: Inputs, ticker: Ticker, asOf: Date) {
    ticker in inp.beats &&
    exists e <- inp.beats[ticker] :: asOf - EARNINGS_LOOKBACK_DAYS <= e.0 <= asOf && e.1 > 0.0
  }

  function VolScale(sigma: real): (s: real)
    ensures VOL_SCALE_LOW <= s <= VOL_SCALE_HIGH
    ensures sigma <= VOL_DEGENERATE_FLOOR ==> s == 1.0
    ensures 0.2 <= sigma <= 0.8 ==> s * sigma == TARGET_ANNUAL_VOL
    ensures sigma > 0.8 ==> s == VOL_SCALE_LOW
    ensures VOL_DEGENERATE_FLOOR < sigma < 0.2 ==> s == VOL_SCALE_HIGH
  {
    if sigma <= VOL_DEGENERATE_FLOOR then 1.0
    else
      var raw := TARGET_ANNUAL_VOL / sigma;
      var capped := if raw < VOL_SCALE_HIGH then raw else VOL_SCALE_HIGH;
      if capped > VOL_SCALE_LOW then capped else VOL_SCALE_LOW
  }

  function ScaledPnl(rawPnl: real, volScale: real): real {
    rawPnl * volScale
  }

  function Closes(panel: Panel): seq<real> {
    seq(|panel|, i requires 0 <= i < |panel| => panel[i].close)
  }

  /** Realized volatility over the 60 bars before the entry bar of a pick made at `rd`. */
  function SigmaAt(inp: Inputs, panel: Panel, rd: Date): real
    requires Find(panel, rd).Some?
  {
    var entry := Find(panel, rd).value + 1;
    var lo := if entry < VOL_WINDOW then 0 else entry - VOL_WINDOW;
    inp.realized(Closes(panel[lo..entry]))
  }

  /** The overlay's record of a legacy trade: same order data, pnl scaled by volatility. */
  function Scaled(inp: Inputs, t: Trade, rd: Date): VolTrade
    requires t.ticker in inp.panels.bars && Find(inp.panels.bars[t.ticker], rd).Some?
  {
    var sigma := SigmaAt(inp, inp.panels.bars[t.ticker], rd);
    var s := VolScale(sigma);
    VolTrade(t.ticker, t.entryDate, t.entryPrice, t.exitDate, t.exitPrice,
      t.pnl, s, ScaledPnl(t.pnl, s), t.score, sigma)
  }

  predicate Holdable(inp: Inputs, ts: seq<Trade>, rd: Date) {
    forall t <- ts :: t.ticker in inp.panels.bars && Find(inp.panels.bars[t.ticker], rd).Some?
  }

  /** Filter by recent beat, then scale: the reference for the overlay. */
  function Overlaid(inp: Inputs, ts: seq<Trade>, rd: Date): seq<VolTrade>
    requires Holdable(inp, ts, rd)
  {
    if ts == [] then []
    else
      var k := |ts| - 1;
      Overlaid(inp, ts[..k], rd) + (if HasRecentBeat(inp, ts[k].ticker, rd) then [Scaled(inp, ts[k], rd)] else [])
  }

  // ── The two rebalances of the source ─────────────────────────────────────

  lemma {:induction false} ScoredHaveBars(inp: Inputs, names: seq<Ticker>, rd: Date)
    requires forall t <- names :: t in inp.panels.bars
    ensures Pickable(inp, Scores(inp, names, rd), rd)
  {
    if names != [] {
      ScoredHaveBars(inp, names[..|names| - 1], rd);
    }
  }

  lemma TopIsPickable(inp: Inputs, rd: Date)
    requires forall t <- inp.panels.names :: t in inp.panels.bars
    ensures Pickable(inp, TopDecile(inp, rd), rd)
  {
    ScoredHaveBars(inp, inp.panels.names, rd);
    RankedMembers(Scores(inp, inp.panels.names, rd));
  }

  lemma ScoresSnoc(inp: Inputs, names: seq<Ticker>, i: nat, rd: Date)
    requires i < |names| && forall t <- names :: t in inp.panels.bars
    ensures Scores(inp, names[..i + 1], rd) == Scores(inp, names[..i], rd)
      + match ScoreOf(inp, names[i], inp.panels.bars[names[i]], rd)
        case None => []
        case Some(s) => [Scored(names[i], s)]
  {
    assert names[..i + 1][..i] == names[..i];
  }

  /** The legacy scoring loop. */
  method ComputeScores(inp: Inputs, rd: Date) returns (scores: seq<Scored>)
    requires Proper(inp.panels)
    ensures scores == Scores(inp, inp.panels.names, rd)
  {
    scores := [];
    var names := inp.panels.names;
    for i := 0 to |names|
      invariant scores == Scores(inp, names[..i], rd)
    {
      ScoresSnoc(inp, names, i, rd);
      var score := ScoreOne(inp, names[i], inp.panels.bars[names[i]], rd);
      if score.Some? {
        scores := scores + [Scored(names[i], score.value)];
      }
    }
    assert names[..|names|] == names;
  }

  /** The body of the legacy scoring loop; None is one of its `continue` exits. */
  method ScoreOne(inp: Inputs, ticker: Ticker, df: Panel, rd: Date) returns (score: Option<real>)
    ensures score == ScoreOf(inp, ticker, df, rd)
  {
    var idx := Find(df, rd);
    if idx.None? {
      return None;
    }
    if idx.value < inp.params.skip + inp.params.lookback {
      return None;
    }
    var now := df[idx.value - inp.params.skip].close;
    var past := df[idx.value - inp.params.skip - inp.params.lookback].close;
    if past <= 0.0 {
      return None;
    }
    if !inp.tradeable(ticker, now) {
      return None;
    }
    score := Some(ReturnOver(now, past));
  }

  /** The overlay's scoring loop, written out a second time there. */
  method ComputeOverlayScores(inp: Inputs, rd: Date) returns (scores: seq<Scored>)
    requires Proper(inp.panels)
    ensures scores == OverlayScores(inp, inp.panels.names, rd)
  {
    scores := [];
    var names := inp.panels.names;
    for i := 0 to |names|
      invariant scores == OverlayScores(inp, names[..i], rd)
    {
      OverlayScoresSnoc(inp, names, i, rd);
      var scored := ScoreForOverlay(inp, names[i], inp.panels.bars[names[i]], rd);
      if scored.Some? {
        scores := scores + [scored.value];
      }
    }
    assert names[..|names|] == names;
  }

  /** The body of the overlay's scoring loop; None is one of its `continue` exits. */
  method ScoreForOverlay(inp: Inputs, ticker: Ticker, df: Panel, rd: Date) returns (scored: Option<Scored>)
    ensures (if scored.Some? then [scored.value] else []) == OverlayScore(inp, ticker, df, rd)
  {
    var idx := Find(df, rd);
    if idx.None? {
      return None;
    }
    if idx.value < inp.params.skip + inp.params.lookback {
      return None;
    }
    var now := df[idx.value - inp.params.skip].close;
    var past := df[idx.value - inp.params.skip - inp.params.lookback].close;
    if past <= 0.0 {
      return None;
    }
    if !inp.tradeable(ticker, now) {
      return None;
    }
    scored := Some(Scored(ticker, now / past - 1.0));
  }

  method ComputeOneRebalance(inp: Inputs, rd: Date) returns (trades: seq<Trade>)
    requires Proper(inp.panels)
    ensures Pickable(inp, TopDecile(inp, rd), rd) && trades == TradesOf(inp, TopDecile(inp, rd), rd)
  {
    var scores := ComputeScores(inp, rd);
    TopIsPickable(inp, rd);
    trades := [];
    if scores == [] {
      return;
    }
    var top := Top(Ranked(scores), inp.params.topDecile);
    for i := 0 to |top|
      invariant trades == TradesOf(inp, top[..i], rd)
    {
      assert top[..i + 1][..i] == top[..i] && top[i] in top;
      var trade := OpenAndClose(inp, top[i], rd);
      if trade.Some? {
        trades := trades + [trade.value];
      }
    }
    assert top[..|top|] == top;
  }

  /** The body of the legacy trade loop; None is one of its `continue` exits. */
  method OpenAndClose(inp: Inputs, pick: Scored, rd: Date) returns (trade: Option<Trade>)
    requires pick.ticker in inp.panels.bars && Find(inp.panels.bars[pick.ticker], rd).Some?
    ensures trade == TradeOf(inp, pick, inp.panels.bars[pick.ticker], rd)
  {
    var df := inp.panels.bars[pick.ticker];
    var entryIdx := Find(df, rd).value + 1;
    if entryIdx >= |df| {
      return None;
    }
    var exitIdx := if entryIdx + inp.params.hold < |df| - 1 then entryIdx + inp.params.hold else |df| - 1;
    if exitIdx <= entryIdx {
      return None;
    }
    var slip := SlippagePerSide(inp.costs, pick.ticker);
    var entryPx := EntryPrice(df[entryIdx].open, slip);
    var exitPx := ExitPrice(df[exitIdx].close, slip);
    if entryPx <= 0.0 {
      return None;
    }
    trade := Some(Trade(pick.ticker, df[entryIdx].date, entryPx, df[exitIdx].date, exitPx,
                        Pnl(entryPx, exitPx), pick.score));
  }

  /** The overlay's rebalance: it filters the decile first, then opens and scales. */
  method ComputeOneRebalanceVolManaged(inp: Inputs, rd: Date) returns (trades: seq<VolTrade>)
    requires Proper(inp.panels)
    ensures Pickable(inp, TopDecile(inp, rd), rd) && Pickable(inp, Filter(TopDecile(inp, rd), WithBeat(inp, rd)), rd)
    ensures trades == VolTradesOf(inp, Filter(TopDecile(inp, rd), WithBeat(inp, rd)), rd)
  {
    var scores := ComputeOverlayScores(inp, rd);
    OverlayScoresAreLegacy(inp, inp.panels.names, rd);
    TopIsPickable(inp, rd);
    trades := [];
    if scores == [] {
      return;
    }
    var top := Top(Ranked(scores), inp.params.topDecile);
    var decileWithBeat := Filter(top, WithBeat(inp, rd));
    BeatsPickable(inp, top, rd);
    trades := OpenAllScaled(inp, decileWithBeat, rd);
  }

  /** The overlay's trade loop. */
  method OpenAllScaled(inp: Inputs, picks: seq<Scored>, rd: Date) returns (trades: seq<VolTrade>)
    requires Pickable(inp, picks, rd)
    ensures trades == VolTradesOf(inp, picks, rd)
  {
    trades := [];
    for i := 0 to |picks|
      invariant trades == VolTradesOf(inp, picks[..i], rd)
    {
      assert picks[..i + 1] == picks[..i] + [picks[i]] && picks[i] in picks;
      VolTradesSnoc(inp, picks[..i], picks[i], rd);
      var trade := OpenAndCloseScaled(inp, picks[i], rd);
      if trade.Some? {
        trades := trades + [trade.value];
      }
    }
    assert picks[..|picks|] == picks;
  }

  /** The body of the overlay's trade loop, with its own arithmetic and sizing. */
  method OpenAndCloseScaled(inp: Inputs, pick: Scored, rd: Date) returns (trade: Option<VolTrade>)
    requires pick.ticker in inp.panels.bars && Find(inp.panels.bars[pick.ticker], rd).Some?
    ensures trade == VolTradeOf(inp, pick, rd)
  {
    var df := inp.panels.bars[pick.ticker];
    var entryIdx := Find(df, rd).value + 1;
    if entryIdx >= |df| {
      return None;
    }
    var exitIdx := if entryIdx + inp.params.hold < |df| - 1 then entryIdx + inp.params.hold else |df| - 1;
    if exitIdx <= entryIdx {
      return None;
    }
    var slip := if pick.ticker in inp.costs then inp.costs[pick.ticker] / 2.0 else 0.0005;
    var entryPx := EntryPrice(df[entryIdx].open, slip);
    var exitPx := ExitPrice(df[exitIdx].close, slip);
    if entryPx <= 0.0 {
      return None;
    }
    var rawPnl := Pnl(entryPx, exitPx);
    var windowLo := if entryIdx < VOL_WINDOW then 0 else entryIdx - VOL_WINDOW;
    var sigma := inp.realized(Closes(df[windowLo..entryIdx]));
    var volScale := VolScale(sigma);
    trade := Some(VolTrade(pick.ticker, df[entryIdx].date, entryPx, df[exitIdx].date, exitPx,
                           rawPnl, volScale, ScaledPnl(rawPnl, volScale), pick.score, sigma));
  }

  method RunBacktest(inp: Inputs, rebalances: seq<Date>) returns (trades: seq<Trade>)
    requires Proper(inp.panels)
    ensures trades == LegacyRun(inp, rebalances)
  {
    trades := [];
    for i := 0 to |rebalances|
      invariant trades == LegacyRun(inp, rebalances[..i])
    {
      assert rebalances[..i + 1][..i] == rebalances[..i];
      var month := ComputeOneRebalance(inp, rebalances[i]);
      trades := trades + month;
    }
    assert rebalances[..|rebalances|] == rebalances;
  }

  method RunVolManagedBacktest(inp: Inputs, rebalances: seq<Date>) returns (trades: seq<VolTrade>)
    requires Proper(inp.panels)
    ensures trades == OverlayRun(inp, rebalances)
  {
    trades := [];
    for i := 0 to |rebalances|
      invariant trades == OverlayRun(inp, rebalances[..i])
    {
      assert rebalances[..i + 1][..i] == rebalances[..i];
      var month := ComputeOneRebalanceVolManaged(inp, rebalances[i]);
      VolIsOverlaidLegacy(inp, TopDecile(inp, rebalances[i]), rebalances[i]);
      trades := trades + month;
    }
    assert rebalances[..|rebalances|] == rebalances;
  }

  // ── The overlay against the legacy backtest ──────────────────────────────

  function WithBeat(inp: Inputs, rd: Date): Scored -> bool {
    (x: Scored) => HasRecentBeat(inp, x.ticker, rd)
  }

  /** What the overlay's loop body computes for one pick. */
  function VolTradeOf(inp: Inputs, pick: Scored, rd: Date): Option<VolTrade>
    requires pick.ticker in inp.panels.bars && Find(inp.panels.bars[pick.ticker], rd).Some?
  {
    match TradeOf(inp, pick, inp.panels.bars[pick.ticker], rd)
    case None => None
    case Some(t) => Some(Scaled(inp, t, rd))
  }

  function VolTradesOf(inp: Inputs, picks: seq<Scored>, rd: Date): seq<VolTrade>
    requires Pickable(inp, picks, rd)
  {
    if picks == [] then []
    else
      var k := |picks| - 1;
      VolTradesOf(inp, picks[..k], rd)
      + match VolTradeOf(inp, picks[k], rd)
        case None => []
        case Some(t) => [t]
  }

  lemma {:induction false} TradesHoldable(inp: Inputs, picks: seq<Scored>, rd: Date)
    requires Pickable(inp, picks, rd)
    ensures Holdable(inp, TradesOf(inp, picks, rd), rd)
  {
    if picks != [] {
      TradesHoldable(inp, picks[..|picks| - 1], rd);
    }
  }

  /** What one pick adds to the overlay's trades. */
  function Added(inp: Inputs, x: Scored, rd: Date): seq<VolTrade>
    requires x.ticker in inp.panels.bars && Find(inp.panels.bars[x.ticker], rd).Some?
  {
    if !HasRecentBeat(inp, x.ticker, rd) then []
    else match VolTradeOf(inp, x, rd)
      case None => []
      case Some(t) => [t]
  }

  lemma VolTradesSnoc(inp: Inputs, picks: seq<Scored>, x: Scored, rd: Date)
    requires Pickable(inp, picks, rd)
    requires x.ticker in inp.panels.bars && Find(inp.panels.bars[x.ticker], rd).Some?
    ensures VolTradesOf(inp, picks + [x], rd) == VolTradesOf(inp, picks, rd)
      + match VolTradeOf(inp, x, rd)
        case None => []
        case Some(t) => [t]
  {
    assert (picks + [x])[..|picks|] == picks && (picks + [x])[|picks|] == x;
  }

  lemma FilteredThenTraded(inp: Inputs, front: seq<Scored>, x: Scored, rd: Date)
    requires Pickable(inp, front, rd) && Pickable(inp, [x], rd)
    ensures Pickable(inp, Filter(front, WithBeat(inp, rd)), rd)
    ensures Pickable(inp, Filter(front + [x], WithBeat(inp, rd)), rd)
    ensures x.ticker in inp.panels.bars && Find(inp.panels.bars[x.ticker], rd).Some?
    ensures VolTradesOf(inp, Filter(front + [x], WithBeat(inp, rd)), rd)
         == VolTradesOf(inp, Filter(front, WithBeat(inp, rd)), rd) + Added(inp, x, rd)
  {
    assert x in [x];
    BeatsPickable(inp, front, rd);
    FilterSnoc(front, x, WithBeat(inp, rd));
    var kept := Filter(front, WithBeat(inp, rd));
    if HasRecentBeat(inp, x.ticker, rd) {
      VolTradesSnoc(inp, kept, x, rd);
    } else {
      assert kept + [] == kept;
    }
  }

  lemma TradedThenFiltered(inp: Inputs, picks: seq<Scored>, rd: Date)
    requires Pickable(inp, picks, rd) && picks != []
    requires Holdable(inp, TradesOf(inp, picks, rd), rd)
    requires Holdable(inp, TradesOf(inp, picks[..|picks| - 1], rd), rd)
    ensures var k := |picks| - 1;
      Overlaid(inp, TradesOf(inp, picks, rd), rd)
      == Overlaid(inp, TradesOf(inp, picks[..k], rd), rd) + Added(inp, picks[k], rd)
  {
    var k := |picks| - 1;
    var ts := TradesOf(inp, picks[..k], rd);
    var t := TradeOf(inp, picks[k], inp.panels.bars[picks[k].ticker], rd);
    if t.Some? {
      assert TradesOf(inp, picks, rd) == ts + [t.value];
      assert (ts + [t.value])[..|ts|] == ts;
    } else {
      assert TradesOf(inp, picks, rd) == ts;
    }
  }

  /** Picking with a beat and then trading is trading and then keeping the trades with a beat. */
  lemma {:induction false} VolIsOverlaidLegacy(inp: Inputs, picks: seq<Scored>, rd: Date)
    requires Pickable(inp, picks, rd)
    ensures Holdable(inp, TradesOf(inp, picks, rd), rd) && Pickable(inp, Filter(picks, WithBeat(inp, rd)), rd)
    ensures VolTradesOf(inp, Filter(picks, WithBeat(inp, rd)), rd) == Overlaid(inp, TradesOf(inp, picks, rd), rd)
  {
    TradesHoldable(inp, picks, rd);
    BeatsPickable(inp, picks, rd);
    if picks != [] {
      VolIsOverlaidLegacy(inp, picks[..|picks| - 1], rd);
      OneMorePick(inp, picks, rd);
    }
  }

  lemma OneMorePick(inp: Inputs, picks: seq<Scored>, rd: Date)
    requires Pickable(inp, picks, rd) && picks != []
    requires Holdable(inp, TradesOf(inp, picks, rd), rd) && Holdable(inp, TradesOf(inp, picks[..|picks| - 1], rd), rd)
    ensures Pickable(inp, Filter(picks, WithBeat(inp, rd)), rd)
    ensures Pickable(inp, Filter(picks[..|picks| - 1], WithBeat(inp, rd)), rd)
    ensures var front, x := picks[..|picks| - 1], picks[|picks| - 1];
      && VolTradesOf(inp, Filter(picks, WithBeat(inp, rd)), rd)
         == VolTradesOf(inp, Filter(front, WithBeat(inp, rd)), rd) + Added(inp, x, rd)
      && Overlaid(inp, TradesOf(inp, picks, rd), rd) == Overlaid(inp, TradesOf(inp, front, rd), rd) + Added(inp, x, rd)
  {
    assert picks == picks[..|picks| - 1] + [picks[|picks| - 1]];
    FilteredThenTraded(inp, picks[..|picks| - 1], picks[|picks| - 1], rd);
    TradedThenFiltered(inp, picks, rd);
  }

  /** The legacy run over a list of rebalance dates. */
  function LegacyRun(inp: Inputs, rebalances: seq<Date>): seq<Trade>
    requires forall t <- inp.panels.names :: t in inp.panels.bars
  {
    if rebalances == [] then []
    else
      var k := |rebalances| - 1;
      TopIsPickable(inp, rebalances[k]);
      LegacyRun(inp, rebalances[..k]) + TradesOf(inp, TopDecile(inp, rebalances[k]), rebalances[k])
  }

  /** Each month's legacy trades, filtered by recent beat at that month's date and then scaled. */
  function OverlayRun(inp: Inputs, rebalances: seq<Date>): seq<VolTrade>
    requires forall t <- inp.panels.names :: t in inp.panels.bars
  {
    if rebalances == [] then []
    else
      var k, rd := |rebalances| - 1, rebalances[|rebalances| - 1];
      TopIsPickable(inp, rd);
      TradesHoldable(inp, TopDecile(inp, rd), rd);
      OverlayRun(inp, rebalances[..k]) + Overlaid(inp, TradesOf(inp, TopDecile(inp, rd), rd), rd)
  }

  /** The overlay record without its sizing. */
  function Unscaled(v: VolTrade): Trade {
    Trade(v.ticker, v.entryDate, v.entryPrice, v.exitDate, v.exitPrice, v.rawPnl, v.score)
  }

  function Stripped(vs: seq<VolTrade>): seq<Trade> {
    seq(|vs|, i requires 0 <= i < |vs| => Unscaled(vs[i]))
  }

  function TradeWithBeat(inp: Inputs, rd: Date): Trade -> bool {
    (t: Trade) => HasRecentBeat(inp, t.ticker, rd)
  }

  /** Taken back off, the overlay leaves exactly the month's legacy trades with a recent beat: same
      order, dates, prices and scores; and every scaled pnl is the legacy pnl times a scale in [0.5, 2]. */
  lemma {:induction false} OverlayOnlyFiltersAndScales(inp: Inputs, ts: seq<Trade>, rd: Date)
    requires Holdable(inp, ts, rd)
    ensures Stripped(Overlaid(inp, ts, rd)) == Filter(ts, TradeWithBeat(inp, rd))
    ensures forall v <- Overlaid(inp, ts, rd) ::
      v.pnl == ScaledPnl(v.rawPnl, v.volScale) && VOL_SCALE_LOW <= v.volScale <= VOL_SCALE_HIGH
  {
    if ts != [] {
      var k := |ts| - 1;
      OverlayOnlyFiltersAndScales(inp, ts[..k], rd);
      FilterSnoc(ts[..k], ts[k], TradeWithBeat(inp, rd));
      assert ts == ts[..k] + [ts[k]];
    }
  }
}
