/** The four firing modes of the catalyst backtest. */
module CatalystModes {
  import opened Prelude
  import opened CatalystSimulator

  datatype Mode = Off | PositiveBeat30d | Beat30dOnly | Beat30dOnlyMacroExpansion

  /** One row of `platform.earnings_events`; `magnitude` is None for NaN. */
  datatype Event = Event(ticker: Ticker, date: Date, isBeat: bool, magnitude: Option<real>)

  datatype Cluster = Cluster(distinctInsiders: int, aggregateUsd: real)

  /** The preloaded inputs of one window. `clusters(as_of, window)` stands for the cluster detector,
      `ordered` for the data-frame sort by (event_date, ticker), `regime` for the session classifier
      over an attached bundle (None when there is none). */
  datatype Context = Context(
    universe: seq<Ticker>,
    clusters: (Date, int) -> map<Ticker, Cluster>,
    prices: map<Ticker, seq<Bar>>,
    costs: map<Ticker, real>,
    start: Date, end: Date,
    events: seq<Event>,
    ordered: seq<Event> -> seq<Event>,
    regime: Option<Date -> string>)

  /** One entry of the diagnostics list. */
  datatype Diag = Diag(ticker: Ticker, entryDate: Date, exitDate: Date, entryPrice: real, exitPrice: real, pnl: real)

  const MIN_PRICE := 10.0
  const MIN_AVG_VOLUME := 1_000_000
  const SMA_TREND_PERIOD := 50
  const MIN_DISTINCT_INSIDERS := 3
  const MIN_AGGREGATE_USD := 250_000.0
  const CONFIRMATION_WINDOW_DAYS := 30
  const DEFAULT_COST := 0.001

  function DiagOf(t: Trade): Diag {
    Diag(t.ticker, t.entryDate, t.exitDate, t.entryPrice, t.exitPrice, t.pnl)
  }

  ghost predicate Parallel(trades: seq<Trade>, diags: seq<Diag>) {
    |diags| == |trades| && forall i :: 0 <= i < |trades| ==> diags[i] == DiagOf(trades[i])
  }

  function UpTo(cursor: Date): Date -> bool {
    d => d <= cursor
  }

  function SumVolume(q: seq<Quote>): int {
    if q == [] then 0 else q[0].volume + SumVolume(q[1..])
  }

  function SumClose(q: seq<Quote>): real {
    if q == [] then 0.0 else q[0].close + SumClose(q[1..])
  }

  /** `_passes_universe_filters`: history, price, liquidity and trend at `cursor`. */
  predicate PassesUniverseFilters(prices: map<Ticker, seq<Bar>>, ticker: Ticker, cursor: Date) {
    ticker in prices &&
    var cut := Quotes(prices[ticker], UpTo(cursor));
    && |cut| >= SMA_TREND_PERIOD
    && cut[|cut| - 1].close >= MIN_PRICE
    && SumVolume(cut[|cut| - 20..]) >= 20 * MIN_AVG_VOLUME
    && cut[|cut| - 1].close > SumClose(cut[|cut| - SMA_TREND_PERIOD..]) / 50.0
  }

  /** `_has_positive_beat`: a positive beat in the backward window ending at `cursor`. */
  predicate HasPositiveBeat(events: seq<Event>, ticker: Ticker, cursor: Date) {
    exists e <- events ::
      e.ticker == ticker && e.isBeat && e.magnitude.Some? && e.magnitude.value > 0.0
      && cursor - CONFIRMATION_WINDOW_DAYS <= e.date <= cursor
  }

  function CostOf(ctx: Context, ticker: Ticker): real {
    if ticker in ctx.costs then ctx.costs[ticker] else DEFAULT_COST
  }

  /** The trades (none or one) of one accepted signal. */
  function Fired(ctx: Context, ticker: Ticker, entryDate: Date, holdDays: int): (ts: seq<Trade>)
    ensures |ts| <= 1 && forall t <- ts :: t.ticker == ticker && t.entryDate == entryDate
  {
    if ticker !in ctx.prices then []
    else match Simulated(ticker, entryDate, ctx.prices[ticker], CostOf(ctx, ticker), holdDays)
      case None => []
      case Some(t) => [t]
  }

  // ── The cluster-driven walk ──────────────────────────────────────────────

  predicate Clustered(ctx: Context, ticker: Ticker, cursor: Date, window: int) {
    var cs := ctx.clusters(cursor, window);
    ticker in cs && cs[ticker].distinctInsiders >= MIN_DISTINCT_INSIDERS
    && cs[ticker].aggregateUsd >= MIN_AGGREGATE_USD
  }

  /** What one ticker contributes at one cursor date. */
  function Signal(ctx: Context, ticker: Ticker, cursor: Date, window: int, confirm: bool, holdDays: int): seq<Trade> {
    if Clustered(ctx, ticker, cursor, window)
       && (confirm ==> HasPositiveBeat(ctx.events, ticker, cursor))
       && PassesUniverseFilters(ctx.prices, ticker, cursor)
    then Fired(ctx, ticker, cursor, holdDays) else []
  }

  /** The trades of one cursor date, for a prefix of the universe. */
  function AtCursor(ctx: Context, tickers: seq<Ticker>, cursor: Date, window: int, confirm: bool, holdDays: int)
    : seq<Trade>
  {
    if tickers == [] then []
    else
      var k := |tickers| - 1;
      AtCursor(ctx, tickers[..k], cursor, window, confirm, holdDays)
      + Signal(ctx, tickers[k], cursor, window, confirm, holdDays)
  }

  /** The walk from `cursor` to the end of the window in strides of `window` days. */
  function WalkFrom(ctx: Context, cursor: Date, window: int, confirm: bool, holdDays: int): seq<Trade>
    requires window > 0 || cursor > ctx.end
    decreases ctx.end - cursor
  {
    if cursor > ctx.end then []
    else
      AtCursor(ctx, ctx.universe, cursor, window, confirm, holdDays)
      + WalkFrom(ctx, cursor + window, window, confirm, holdDays)
  }

  // ── The event-driven arms ────────────────────────────────────────────────

  predicate Qualifies(ctx: Context, e: Event) {
    e.ticker in ctx.universe && ctx.start <= e.date <= ctx.end
  }

  function Qualifying(ctx: Context): seq<Event> {
    ctx.ordered(Filter(ctx.events, e => Qualifies(ctx, e)))
  }

  predicate Expansion(regime: Option<Date -> string>, d: Date) {
    regime.Some? && regime.value(d) == "expansion"
  }

  /** What one qualifying event contributes to the beat-only arm. */
  function OnBeat(ctx: Context, e: Event, holdDays: int): seq<Trade> {
    if PassesUniverseFilters(ctx.prices, e.ticker, e.date) then Fired(ctx, e.ticker, e.date + 1, holdDays) else []
  }

  function OnBeats(ctx: Context, events: seq<Event>, holdDays: int): seq<Trade> {
    if events == [] then []
    else
      var k := |events| - 1;
      OnBeats(ctx, events[..k], holdDays) + OnBeat(ctx, events[k], holdDays)
  }

  /** What one qualifying event contributes to the macro-expansion arm. */
  function OnExpansion(ctx: Context, e: Event, holdDays: int): seq<Trade> {
    if !Expansion(ctx.regime, e.date) then []
    else if !PassesUniverseFilters(ctx.prices, e.ticker, e.date) then []
    else Fired(ctx, e.ticker, e.date + 1, holdDays)
  }

  function OnExpansions(ctx: Context, events: seq<Event>, holdDays: int): seq<Trade> {
    if events == [] then []
    else
      var k := |events| - 1;
      OnExpansions(ctx, events[..k], holdDays) + OnExpansion(ctx, events[k], holdDays)
  }

  predicate ByCluster(mode: Mode) {
    mode == Off || mode == PositiveBeat30d
  }

  /** The monthly walk is entered: the other modes never walk, nor does a run without prices. */
  predicate Walks(ctx: Context, mode: Mode) {
    ByCluster(mode) && ctx.prices != map[] && ctx.start <= ctx.end
  }

  /** The trade list of each mode. */
  function TradesOf(ctx: Context, mode: Mode, window: int, holdDays: int): seq<Trade>
    requires Walks(ctx, mode) ==> window > 0
  {
    if mode == Beat30dOnly then
      OnBeats(ctx, if ctx.events == [] then [] else Qualifying(ctx), holdDays)
    else if mode == Beat30dOnlyMacroExpansion then
      if ctx.regime.None? then [] else OnExpansions(ctx, if ctx.events == [] then [] else Qualifying(ctx), holdDays)
    else if ctx.prices == map[] then []
    else WalkFrom(ctx, ctx.start, window, mode == PositiveBeat30d, holdDays)
  }

  // ── How the walk ends ────────────────────────────────────────────────────

  /** `date.min` and `date.max`, as day numbers. */
  const DATE_MIN := 1
  const DATE_MAX := 3_652_059

  predicate InCalendar(d: Date) {
    DATE_MIN <= d <= DATE_MAX
  }

  /** Where the walk stands: at a cursor inside the loop, past the end, or out of the calendar, where
      date arithmetic raises OverflowError. */
  datatype Stand = Walking(cursor: Date) | Left | Overflowed

  /** The walk after some rounds of its loop. */
  function Rounds(start: Date, end: Date, window: int, n: nat): Stand {
    if n == 0 then
      if start > end then Left else Walking(start)
    else
      var before := Rounds(start, end, window, n - 1);
      if !before.Walking? then before
      else if !InCalendar(before.cursor + window) then Overflowed
      else if before.cursor + window > end then Left
      else Walking(before.cursor + window)
  }

  // ── The methods of the source ────────────────────────────────────────────

  /** The entry every arm makes once a signal is accepted. */
  method Enter(ctx: Context, ticker: Ticker, entryDate: Date, holdDays: int) returns (trade: Option<Trade>)
    requires ticker in ctx.prices
    ensures Fired(ctx, ticker, entryDate, holdDays) == AsSeq(trade)
  {
    trade := SimulateTrade(ticker, entryDate, ctx.prices[ticker], CostOf(ctx, ticker), holdDays);
  }

  /** `trades` and its diagnostics with at most one more entry on both. */
  method Push(trades: seq<Trade>, diags: seq<Diag>, trade: Option<Trade>)
    returns (trades': seq<Trade>, diags': seq<Diag>)
    requires Parallel(trades, diags)
    ensures trades' == trades + AsSeq(trade) && Parallel(trades', diags')
  {
    if trade.None? {
      return trades, diags;
    }
    trades', diags' := trades + [trade.value], diags + [DiagOf(trade.value)];
  }

  function AsSeq<T>(x: Option<T>): seq<T> {
    if x.Some? then [x.value] else []
  }

  lemma OnBeatsSnoc(ctx: Context, events: seq<Event>, i: nat, holdDays: int)
    requires i < |events|
    ensures OnBeats(ctx, events[..i + 1], holdDays)
         == OnBeats(ctx, events[..i], holdDays) + OnBeat(ctx, events[i], holdDays)
  {
    assert events[..i + 1][..i] == events[..i];
  }

  /** The body of the beat-only loop; None is one of its `continue` exits. */
  method TryBeat(ctx: Context, e: Event, holdDays: int) returns (trade: Option<Trade>)
    ensures OnBeat(ctx, e, holdDays) == AsSeq(trade)
  {
    if !PassesUniverseFilters(ctx.prices, e.ticker, e.date) {
      return None;
    }
    trade := Enter(ctx, e.ticker, e.date + 1, holdDays);
  }

  method BuildTradesBeatOnly(ctx: Context, holdDays: int) returns (trades: seq<Trade>, diags: seq<Diag>)
    ensures trades == TradesOf(ctx, Beat30dOnly, 1, holdDays) && Parallel(trades, diags)
  {
    trades, diags := [], [];
    if ctx.prices == map[] {
      NoPricesNoBeats(ctx, if ctx.events == [] then [] else Qualifying(ctx), holdDays);
      return;
    }
    if ctx.events == [] {
      return;
    }
    trades, diags := WalkBeats(ctx, Qualifying(ctx), holdDays);
  }

  method WalkBeats(ctx: Context, qualifying: seq<Event>, holdDays: int) returns (trades: seq<Trade>, diags: seq<Diag>)
    ensures trades == OnBeats(ctx, qualifying, holdDays) && Parallel(trades, diags)
  {
    trades, diags := [], [];
    for i := 0 to |qualifying|
      invariant trades == OnBeats(ctx, qualifying[..i], holdDays) && Parallel(trades, diags)
    {
      OnBeatsSnoc(ctx, qualifying, i, holdDays);
      var trade := TryBeat(ctx, qualifying[i], holdDays);
      trades, diags := Push(trades, diags, trade);
    }
    assert qualifying[..|qualifying|] == qualifying;
  }

  lemma OnExpansionsSnoc(ctx: Context, events: seq<Event>, i: nat, holdDays: int)
    requires i < |events|
    ensures OnExpansions(ctx, events[..i + 1], holdDays)
         == OnExpansions(ctx, events[..i], holdDays) + OnExpansion(ctx, events[i], holdDays)
  {
    assert events[..i + 1][..i] == events[..i];
  }

  /** The body of the macro-expansion loop, with its regime gate first. */
  method TryExpansion(ctx: Context, e: Event, holdDays: int) returns (trade: Option<Trade>)
    ensures OnExpansion(ctx, e, holdDays) == AsSeq(trade)
  {
    if ctx.regime.None? || ctx.regime.value(e.date) != "expansion" {
      return None;
    }
    if !PassesUniverseFilters(ctx.prices, e.ticker, e.date) {
      return None;
    }
    trade := Enter(ctx, e.ticker, e.date + 1, holdDays);
  }

  method BuildTradesBeatOnlyMacroExpansion(ctx: Context, holdDays: int) returns (trades: seq<Trade>, diags: seq<Diag>)
    ensures trades == TradesOf(ctx, Beat30dOnlyMacroExpansion, 1, holdDays) && Parallel(trades, diags)
  {
    trades, diags := [], [];
    if ctx.prices == map[] {
      NoPricesNoExpansions(ctx, if ctx.events == [] then [] else Qualifying(ctx), holdDays);
      return;
    }
    if ctx.events == [] {
      return;
    }
    if ctx.regime.None? {
      return;
    }
    trades, diags := WalkExpansions(ctx, Qualifying(ctx), holdDays);
  }

  method WalkExpansions(ctx: Context, qualifying: seq<Event>, holdDays: int)
    returns (trades: seq<Trade>, diags: seq<Diag>)
    ensures trades == OnExpansions(ctx, qualifying, holdDays) && Parallel(trades, diags)
  {
    trades, diags := [], [];
    for i := 0 to |qualifying|
      invariant trades == OnExpansions(ctx, qualifying[..i], holdDays) && Parallel(trades, diags)
    {
      OnExpansionsSnoc(ctx, qualifying, i, holdDays);
      var trade := TryExpansion(ctx, qualifying[i], holdDays);
      trades, diags := Push(trades, diags, trade);
    }
    assert qualifying[..|qualifying|] == qualifying;
  }

  /** The dispatcher. A window of zero over a range that is walked would never end (WalkEndsIff), so
      the caller must pass another; a negative one leaves the calendar and raises. */
  method BuildTrades(ctx: Context, window: int, mode: Mode, holdDays: int)
    returns (raised: bool, trades: seq<Trade>, diags: seq<Diag>, ghost rounds: nat)
    requires InCalendar(ctx.start) && InCalendar(ctx.end)
    requires Walks(ctx, mode) ==> window != 0
    ensures raised ==> Walks(ctx, mode) && Rounds(ctx.start, ctx.end, window, rounds) == Overflowed
    ensures !raised && Walks(ctx, mode) ==> Rounds(ctx.start, ctx.end, window, rounds) == Left
    ensures !raised ==> (Walks(ctx, mode) ==> window > 0)
    ensures !raised ==> trades == TradesOf(ctx, mode, window, holdDays) && Parallel(trades, diags)
  {
    raised, trades, diags, rounds := false, [], [], 0;
    if mode == Beat30dOnly {
      trades, diags := BuildTradesBeatOnly(ctx, holdDays);
      return;
    }
    if mode == Beat30dOnlyMacroExpansion {
      trades, diags := BuildTradesBeatOnlyMacroExpansion(ctx, holdDays);
      return;
    }
    if ctx.prices == map[] {
      return;
    }
    raised, trades, diags, rounds := WalkMonthly(ctx, window, mode == PositiveBeat30d, holdDays);
  }

  method WalkMonthly(ctx: Context, window: int, confirm: bool, holdDays: int)
    returns (raised: bool, trades: seq<Trade>, diags: seq<Diag>, ghost rounds: nat)
    requires InCalendar(ctx.start) && InCalendar(ctx.end) && (window != 0 || ctx.start > ctx.end)
    ensures Rounds(ctx.start, ctx.end, window, rounds) == if raised then Overflowed else Left
    ensures raised ==> ctx.start <= ctx.end
    ensures !raised ==> window > 0 || ctx.start > ctx.end
    ensures !raised ==> trades == WalkFrom(ctx, ctx.start, window, confirm, holdDays) && Parallel(trades, diags)
  {
    raised, trades, diags, rounds := false, [], [], 0;
    var cursor := ctx.start;
    while cursor <= ctx.end
      invariant InCalendar(cursor)
      invariant Rounds(ctx.start, ctx.end, window, rounds) == if cursor <= ctx.end then Walking(cursor) else Left
      invariant cursor <= ctx.end || window > 0 || ctx.start > ctx.end
      invariant window > 0 ==>
        WalkFrom(ctx, ctx.start, window, confirm, holdDays) == trades + WalkFrom(ctx, cursor, window, confirm, holdDays)
      invariant rounds == 0 ==> trades == []
      invariant ctx.start > ctx.end ==> rounds == 0
      invariant Parallel(trades, diags)
      decreases if window > 0 then ctx.end - cursor else cursor
    {
      if window > 0 {
        ConcatAssociates(trades, AtCursor(ctx, ctx.universe, cursor, window, confirm, holdDays),
                         WalkFrom(ctx, cursor + window, window, confirm, holdDays));
      }
      trades, diags := ScanUniverse(ctx, cursor, window, confirm, holdDays, trades, diags);
      rounds := rounds + 1;
      if !InCalendar(cursor + window) {
        return true, [], [], rounds;
      }
      cursor := cursor + window;
    }
  }

  lemma AtCursorSnoc(ctx: Context, tickers: seq<Ticker>, i: nat, cursor: Date, window: int, confirm: bool,
      holdDays: int)
    requires i < |tickers|
    ensures AtCursor(ctx, tickers[..i + 1], cursor, window, confirm, holdDays)
         == AtCursor(ctx, tickers[..i], cursor, window, confirm, holdDays)
            + Signal(ctx, tickers[i], cursor, window, confirm, holdDays)
  {
    assert tickers[..i + 1][..i] == tickers[..i];
  }

  /** The body of the cluster loop. */
  method TryCluster(ctx: Context, ticker: Ticker, cursor: Date, window: int, confirm: bool, holdDays: int)
    returns (trade: Option<Trade>)
    ensures Signal(ctx, ticker, cursor, window, confirm, holdDays) == AsSeq(trade)
  {
    var clusters := ctx.clusters(cursor, window);
    if ticker !in clusters {
      return None;
    }
    if clusters[ticker].distinctInsiders < MIN_DISTINCT_INSIDERS {
      return None;
    }
    if clusters[ticker].aggregateUsd < MIN_AGGREGATE_USD {
      return None;
    }
    if confirm && !HasPositiveBeat(ctx.events, ticker, cursor) {
      return None;
    }
    if !PassesUniverseFilters(ctx.prices, ticker, cursor) {
      return None;
    }
    trade := Enter(ctx, ticker, cursor, holdDays);
  }

  /** The inner loop over the universe at one cursor date. */
  method ScanUniverse(ctx: Context, cursor: Date, window: int, confirm: bool, holdDays: int,
                      trades0: seq<Trade>, diags0: seq<Diag>) returns (trades: seq<Trade>, diags: seq<Diag>)
    requires Parallel(trades0, diags0)
    ensures trades == trades0 + AtCursor(ctx, ctx.universe, cursor, window, confirm, holdDays)
    ensures Parallel(trades, diags)
  {
    trades, diags := trades0, diags0;
    for i := 0 to |ctx.universe|
      invariant trades == trades0 + AtCursor(ctx, ctx.universe[..i], cursor, window, confirm, holdDays)
      invariant Parallel(trades, diags)
    {
      AtCursorSnoc(ctx, ctx.universe, i, cursor, window, confirm, holdDays);
      var trade := TryCluster(ctx, ctx.universe[i], cursor, window, confirm, holdDays);
      trades, diags := Push(trades, diags, trade);
    }
    assert ctx.universe[..|ctx.universe|] == ctx.universe;
  }

  lemma {:induction false} NoPricesNoBeats(ctx: Context, events: seq<Event>, holdDays: int)
    requires ctx.prices == map[]
    ensures OnBeats(ctx, events, holdDays) == []
  {
    if events != [] {
      NoPricesNoBeats(ctx, events[..|events| - 1], holdDays);
    }
  }

  lemma {:induction false} NoPricesNoExpansions(ctx: Context, events: seq<Event>, holdDays: int)
    requires ctx.prices == map[]
    ensures OnExpansions(ctx, events, holdDays) == []
  {
    if events != [] {
      NoPricesNoExpansions(ctx, events[..|events| - 1], holdDays);
    }
  }

  // ── How the modes relate ─────────────────────────────────────────────────

  function BeatAtEntry(ctx: Context): Trade -> bool {
    (t: Trade) => HasPositiveBeat(ctx.events, t.ticker, t.entryDate)
  }

  function ExpansionAtEvent(ctx: Context): Trade -> bool {
    (t: Trade) => Expansion(ctx.regime, t.entryDate - 1)
  }

  lemma FilterAtMostOne<T>(s: seq<T>, p: T -> bool)
    requires |s| <= 1
    ensures Filter(s, p) == if s != [] && p(s[0]) then s else []
  {
  }

  lemma ConfirmedSignal(ctx: Context, ticker: Ticker, cursor: Date, window: int, holdDays: int)
    ensures Signal(ctx, ticker, cursor, window, true, holdDays)
         == Filter(Signal(ctx, ticker, cursor, window, false, holdDays), BeatAtEntry(ctx))
  {
    FilterAtMostOne(Signal(ctx, ticker, cursor, window, false, holdDays), BeatAtEntry(ctx));
  }

  lemma {:induction false} ConfirmedAtCursor(ctx: Context, tickers: seq<Ticker>, cursor: Date, window: int,
      holdDays: int)
    ensures AtCursor(ctx, tickers, cursor, window, true, holdDays)
         == Filter(AtCursor(ctx, tickers, cursor, window, false, holdDays), BeatAtEntry(ctx))
  {
    if tickers != [] {
      var k := |tickers| - 1;
      ConfirmedAtCursor(ctx, tickers[..k], cursor, window, holdDays);
      ConfirmedSignal(ctx, tickers[k], cursor, window, holdDays);
      FilterAppend(AtCursor(ctx, tickers[..k], cursor, window, false, holdDays),
                   Signal(ctx, tickers[k], cursor, window, false, holdDays), BeatAtEntry(ctx));
    }
  }

  lemma {:induction false} ConfirmedWalk(ctx: Context, cursor: Date, window: int, holdDays: int)
    requires window > 0 || cursor > ctx.end
    ensures WalkFrom(ctx, cursor, window, true, holdDays)
         == Filter(WalkFrom(ctx, cursor, window, false, holdDays), BeatAtEntry(ctx))
    decreases ctx.end - cursor
  {
    if cursor <= ctx.end {
      ConfirmedAtCursor(ctx, ctx.universe, cursor, window, holdDays);
      ConfirmedWalk(ctx, cursor + window, window, holdDays);
      var first := AtCursor(ctx, ctx.universe, cursor, window, false, holdDays);
      var rest := WalkFrom(ctx, cursor + window, window, false, holdDays);
      assert WalkFrom(ctx, cursor, window, false, holdDays) == first + rest;
      FilterAppend(first, rest, BeatAtEntry(ctx));
    }
  }

  /** `positive_beat_30d` keeps exactly the `off` trades whose ticker beat in the 30 days up to the
      entry date, in the same order. */
  lemma PositiveBeatFiltersOff(ctx: Context, window: int, holdDays: int)
    requires Walks(ctx, Off) ==> window > 0
    ensures TradesOf(ctx, PositiveBeat30d, window, holdDays)
         == Filter(TradesOf(ctx, Off, window, holdDays), BeatAtEntry(ctx))
    ensures Subsequence(TradesOf(ctx, PositiveBeat30d, window, holdDays), TradesOf(ctx, Off, window, holdDays))
  {
    if ctx.prices != map[] {
      ConfirmedWalk(ctx, ctx.start, window, holdDays);
    }
    FilterIsSubsequence(TradesOf(ctx, Off, window, holdDays), BeatAtEntry(ctx));
  }

  lemma GatedBeat(ctx: Context, e: Event, holdDays: int)
    ensures OnExpansion(ctx, e, holdDays) == Filter(OnBeat(ctx, e, holdDays), ExpansionAtEvent(ctx))
  {
    FilterAtMostOne(OnBeat(ctx, e, holdDays), ExpansionAtEvent(ctx));
  }

  lemma {:induction false} GatedBeats(ctx: Context, events: seq<Event>, holdDays: int)
    ensures OnExpansions(ctx, events, holdDays) == Filter(OnBeats(ctx, events, holdDays), ExpansionAtEvent(ctx))
  {
    if events != [] {
      var init, last := events[..|events| - 1], events[|events| - 1];
      GatedBeats(ctx, init, holdDays);
      GatedBeat(ctx, last, holdDays);
      FilterAppend(OnBeats(ctx, init, holdDays), OnBeat(ctx, last, holdDays), ExpansionAtEvent(ctx));
    }
  }

  /** The macro arm is exactly the event-driven arm filtered by the regime at the event date: equal
      to it when every session is an expansion, empty without a regime bundle. */
  lemma MacroFiltersBeatOnly(ctx: Context, window: int, holdDays: int)
    ensures TradesOf(ctx, Beat30dOnlyMacroExpansion, window, holdDays)
         == Filter(TradesOf(ctx, Beat30dOnly, window, holdDays), ExpansionAtEvent(ctx))
    ensures (forall d: Date :: Expansion(ctx.regime, d)) ==>
      TradesOf(ctx, Beat30dOnlyMacroExpansion, window, holdDays) == TradesOf(ctx, Beat30dOnly, window, holdDays)
    ensures ctx.regime.None? ==> TradesOf(ctx, Beat30dOnlyMacroExpansion, window, holdDays) == []
  {
    GatedBeats(ctx, if ctx.events == [] then [] else Qualifying(ctx), holdDays);
    if forall d: Date :: Expansion(ctx.regime, d) {
      FilterAll(TradesOf(ctx, Beat30dOnly, window, holdDays), ExpansionAtEvent(ctx));
    }
    if ctx.regime.None? {
      FilterNone(TradesOf(ctx, Beat30dOnly, window, holdDays), ExpansionAtEvent(ctx));
    }
  }

  /** The first cursor of the walk past the end of the range. */
  function ExitCursor(cursor: Date, end: Date, window: int): Date
    requires window > 0
    decreases end - cursor
  {
    if cursor > end then cursor else ExitCursor(cursor + window, end, window)
  }

  /** The walk after some rounds, resumed from where it stands. */
  lemma {:induction false} Resumed(start: Date, end: Date, window: int, n: nat)
    requires start <= end && InCalendar(start + window)
    ensures Rounds(start, end, window, n + 1) == Rounds(start + window, end, window, n)
  {
    if n > 0 {
      Resumed(start, end, window, n - 1);
    }
  }

  /** A positive window leaves the range, unless the first cursor past it is out of the calendar. */
  lemma {:induction false} PositiveWalk(start: Date, end: Date, window: int) returns (n: nat)
    requires window > 0 && InCalendar(start) && InCalendar(end)
    ensures Rounds(start, end, window, n) == if ExitCursor(start, end, window) <= DATE_MAX then Left else Overflowed
    decreases end - start
  {
    if start > end {
      n := 0;
    } else if !InCalendar(start + window) {
      assert Rounds(start, end, window, 0) == Walking(start);
      n := 1;
    } else {
      n := PositiveWalk(start + window, end, window);
      Resumed(start, end, window, n);
      n := n + 1;
    }
  }

  /** A negative window walks backward out of the calendar. */
  lemma {:induction false} NegativeWalk(start: Date, end: Date, window: int) returns (n: nat)
    requires window < 0 && InCalendar(start) && start <= end <= DATE_MAX
    ensures Rounds(start, end, window, n) == Overflowed
    decreases start
  {
    if !InCalendar(start + window) {
      assert Rounds(start, end, window, 0) == Walking(start);
      n := 1;
    } else {
      n := NegativeWalk(start + window, end, window);
      Resumed(start, end, window, n);
      n := n + 1;
    }
  }

  lemma {:induction false} StandStays(start: Date, end: Date, window: int, m: nat, n: nat)
    requires m <= n && !Rounds(start, end, window, m).Walking?
    ensures Rounds(start, end, window, n) == Rounds(start, end, window, m)
  {
    if m < n {
      StandStays(start, end, window, m, n - 1);
    }
  }

  lemma {:induction false} ZeroWalk(start: Date, end: Date, n: nat)
    requires InCalendar(start) && start <= end
    ensures Rounds(start, end, 0, n) == Walking(start)
  {
    if n > 0 {
      ZeroWalk(start, end, n - 1);
    }
  }

  /** How the walk ends, by its window: it ends at all if and only if the range is empty or the window is
      not zero, and it ends past the range, rather than in an overflow, if and only if the range is empty
      or the window is positive and the calendar has room for its last stride. */
  lemma WalkEndsIff(start: Date, end: Date, window: int)
    requires InCalendar(start) && InCalendar(end)
    ensures (exists n: nat :: !Rounds(start, end, window, n).Walking?) <==> start > end || window != 0
    ensures (exists n: nat :: Rounds(start, end, window, n) == Left) <==>
      start > end || (window > 0 && ExitCursor(start, end, window) <= DATE_MAX)
  {
    if start > end {
      assert Rounds(start, end, window, 0) == Left;
    } else if window == 0 {
      forall n: nat ensures Rounds(start, end, window, n).Walking? {
        ZeroWalk(start, end, n);
      }
    } else {
      var m: nat;
      if window > 0 {
        m := PositiveWalk(start, end, window);
      } else {
        m := NegativeWalk(start, end, window);
      }
      forall n: nat | Rounds(start, end, window, n) == Left ensures Rounds(start, end, window, m) == Left {
        StandStays(start, end, window, if m <= n then m else n, if m <= n then n else m);
      }
    }
  }
}
