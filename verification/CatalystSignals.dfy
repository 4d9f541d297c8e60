/** Which signals the catalyst modes act on, said of clusters, quotes, events and costs in the source's own
    figures, and the trade that each makes. */
module CatalystSignals {
  import opened Prelude
  import opened CatalystSimulator
  import opened CatalystModes

  // ── The gates ────────────────────────────────────────────────────────────

  /** The sums of the averages, built up from the other end. */
  lemma {:induction false} SumsGrow(q: seq<Quote>, x: Quote)
    ensures SumVolume([]) == 0 && SumClose([]) == 0.0
    ensures SumVolume(q + [x]) == SumVolume(q) + x.volume
    ensures SumClose(q + [x]) == SumClose(q) + x.close
  {
    if q == [] {
      assert [] + [x] == [x] && [x][1..] == [];
    } else {
      assert (q + [x])[1..] == q[1..] + [x];
      SumsGrow(q[1..], x);
    }
  }

  /** The quotes are the rows with a close dated up to the cursor, in order. */
  ghost predicate QuotedUpTo(prices: seq<Bar>, cursor: Date, cut: seq<Quote>) {
    var kept := Filter(prices, (b: Bar) => b.date <= cursor && b.close.Some?);
    && |cut| == |kept|
    && forall i :: 0 <= i < |cut| ==>
         kept[i].close.Some? && cut[i] == Quote(kept[i].date, kept[i].close.value, kept[i].volume)
  }

  /** Fifty quotes, the last at ten dollars or more and above their mean, and a million shares a day over the
      last twenty. */
  predicate LiquidAndRising(cut: seq<Quote>) {
    && |cut| >= 50
    && var last := cut[|cut| - 1].close;
      && last >= 10.0 && last * 50.0 > SumClose(cut[|cut| - 50..])
      && SumVolume(cut[|cut| - 20..]) >= 20_000_000
  }

  lemma UniverseGateIff(prices: map<Ticker, seq<Bar>>, ticker: Ticker, cursor: Date)
    ensures PassesUniverseFilters(prices, ticker, cursor) <==>
      ticker in prices
      && exists cut: seq<Quote> :: QuotedUpTo(prices[ticker], cursor, cut) && LiquidAndRising(cut)
  {
    if ticker in prices {
      var cut := Quotes(prices[ticker], UpTo(cursor));
      QuotesAre(prices[ticker], UpTo(cursor), (b: Bar) => b.date <= cursor && b.close.Some?);
      assert QuotedUpTo(prices[ticker], cursor, cut);
      forall other: seq<Quote> | QuotedUpTo(prices[ticker], cursor, other) ensures other == cut {
      }
    }
  }

  /** At least three insiders and a quarter of a million dollars. */
  predicate InsiderCluster(ctx: Context, ticker: Ticker, cursor: Date, window: int) {
    var cs := ctx.clusters(cursor, window);
    ticker in cs && cs[ticker].distinctInsiders > 2 && cs[ticker].aggregateUsd >= 250000.0
  }

  predicate PositiveBeat(e: Event) {
    e.isBeat && e.magnitude.Some? && e.magnitude.value > 0.0
  }

  /** A positive beat in the thirty days up to the date. */
  predicate BeatBefore(events: seq<Event>, ticker: Ticker, date: Date) {
    exists e <- events :: e.ticker == ticker && PositiveBeat(e) && 0 <= date - e.date <= 30
  }

  ghost predicate Gated(prices: map<Ticker, seq<Bar>>, ticker: Ticker, cursor: Date) {
    ticker in prices && exists cut: seq<Quote> :: QuotedUpTo(prices[ticker], cursor, cut) && LiquidAndRising(cut)
  }

  // ── The entry ────────────────────────────────────────────────────────────

  /** The round-trip cost of a name, ten basis points for one without. */
  function RoundTrip(costs: map<Ticker, real>, ticker: Ticker): real {
    if ticker in costs then costs[ticker] else 0.001
  }

  /** The trade of a name entered from a date on. */
  ghost predicate EntersAt(ctx: Context, ticker: Ticker, entryDate: Date, holdDays: int, t: Trade) {
    && ticker in ctx.prices && t.ticker == ticker && t.entryDate == entryDate
    && exists cut: seq<Quote>, k: nat :: QuotedFrom(ctx.prices[ticker], entryDate, cut)
         && |cut| >= 2 && cut[0].close > 0.0 && ExitsAt(cut, RoundTrip(ctx.costs, ticker), holdDays, t, k)
  }

  /** There are two quotes from the date on, and the first is positive. */
  ghost predicate CanEnter(ctx: Context, ticker: Ticker, entryDate: Date) {
    && ticker in ctx.prices
    && exists cut: seq<Quote> :: QuotedFrom(ctx.prices[ticker], entryDate, cut) && |cut| >= 2 && cut[0].close > 0.0
  }

  lemma FiredIs(ctx: Context, ticker: Ticker, entryDate: Date, holdDays: int)
    ensures var ts := Fired(ctx, ticker, entryDate, holdDays);
      && |ts| == (if CanEnter(ctx, ticker, entryDate) then 1 else 0)
      && forall t <- ts :: EntersAt(ctx, ticker, entryDate, holdDays, t)
  {
    if ticker in ctx.prices {
      var cut := Quotes(ctx.prices[ticker], From(entryDate));
      var cost := RoundTrip(ctx.costs, ticker);
      FirstPassage(ticker, entryDate, ctx.prices[ticker], cost, holdDays);
      var r := Simulated(ticker, entryDate, ctx.prices[ticker], cost, holdDays);
      if r.Some? {
        var k: nat :| ExitsAt(cut, cost, holdDays, r.value, k);
      }
      forall other: seq<Quote> | QuotedFrom(ctx.prices[ticker], entryDate, other) ensures other == cut {
      }
    }
  }

  // ── The trades of each arm ───────────────────────────────────────────────

  ghost predicate Acts(ctx: Context, ticker: Ticker, cursor: Date, window: int, confirm: bool) {
    && InsiderCluster(ctx, ticker, cursor, window)
    && (confirm ==> BeatBefore(ctx.events, ticker, cursor))
    && Gated(ctx.prices, ticker, cursor) && CanEnter(ctx, ticker, cursor)
  }

  lemma BeatIff(events: seq<Event>, ticker: Ticker, date: Date)
    ensures HasPositiveBeat(events, ticker, date) <==> BeatBefore(events, ticker, date)
  {
    if BeatBefore(events, ticker, date) {
      var e :| e in events && e.ticker == ticker && PositiveBeat(e) && 0 <= date - e.date <= 30;
      assert date - CONFIRMATION_WINDOW_DAYS <= e.date <= date;
    }
  }

  lemma SignalIs(ctx: Context, ticker: Ticker, cursor: Date, window: int, confirm: bool, holdDays: int)
    ensures var ts := Signal(ctx, ticker, cursor, window, confirm, holdDays);
      && |ts| == (if Acts(ctx, ticker, cursor, window, confirm) then 1 else 0)
      && forall t <- ts :: EntersAt(ctx, ticker, cursor, holdDays, t)
  {
    BeatIff(ctx.events, ticker, cursor);
    UniverseGateIff(ctx.prices, ticker, cursor);
    FiredIs(ctx, ticker, cursor, holdDays);
  }

  ghost predicate EnteredInOrder(ctx: Context, tickers: seq<Ticker>, cursor: Date, holdDays: int, trades: seq<Trade>) {
    |trades| == |tickers| && forall i :: 0 <= i < |trades| ==> EntersAt(ctx, tickers[i], cursor, holdDays, trades[i])
  }

  lemma OneMoreName(ctx: Context, tickers: seq<Ticker>, trades: seq<Trade>, ticker: Ticker, more: seq<Trade>,
      acts: bool, cursor: Date, holdDays: int)
    requires EnteredInOrder(ctx, tickers, cursor, holdDays, trades)
    requires |more| == if acts then 1 else 0
    requires forall t <- more :: EntersAt(ctx, ticker, cursor, holdDays, t)
    ensures EnteredInOrder(ctx, tickers + if acts then [ticker] else [], cursor, holdDays, trades + more)
  {
    if acts {
      assert more[0] in more && more == [more[0]];
    }
  }

  /** The trades of one stop of the walk are those of the names it acts on, one for one and in the order of
      the universe. */
  lemma {:induction false} StopTradesAre(ctx: Context, tickers: seq<Ticker>, cursor: Date, window: int, confirm: bool,
      holdDays: int, acts: Ticker -> bool)
    requires forall t <- tickers :: acts(t) <==> Acts(ctx, t, cursor, window, confirm)
    ensures EnteredInOrder(ctx, Filter(tickers, acts), cursor, holdDays,
      AtCursor(ctx, tickers, cursor, window, confirm, holdDays))
  {
    if tickers != [] {
      var front, last := tickers[..|tickers| - 1], tickers[|tickers| - 1];
      assert tickers == front + [last] && last in tickers;
      StopTradesAre(ctx, front, cursor, window, confirm, holdDays, acts);
      FilterSnoc(front, last, acts);
      SignalIs(ctx, last, cursor, window, confirm, holdDays);
      OneMoreName(ctx, Filter(front, acts), AtCursor(ctx, front, cursor, window, confirm, holdDays), last,
                  Signal(ctx, last, cursor, window, confirm, holdDays), acts(last), cursor, holdDays);
    }
  }

  /** The date of a stop of the walk. */
  predicate StopAt(start: Date, window: int, n: nat, cursor: Date) {
    cursor == start + n * window
  }

  lemma NextStop(start: Date, window: int, n: nat, cursor: Date)
    ensures StopAt(start, window, n + 1, cursor) <==> StopAt(start + window, window, n, cursor)
  {
    assert (n + 1) * window == n * window + window;
  }

  ghost predicate TradedAtStop(ctx: Context, start: Date, window: int, confirm: bool, holdDays: int, t: Trade) {
    exists n: nat, cursor: Date :: StopAt(start, window, n, cursor) && cursor <= ctx.end
      && t in AtCursor(ctx, ctx.universe, cursor, window, confirm, holdDays)
  }

  /** The walk trades at its start and every `window` days from it up to the end of the range, and nowhere
      else. */
  lemma {:induction false} WalkStops(ctx: Context, start: Date, window: int, confirm: bool, holdDays: int, t: Trade)
    requires window > 0
    ensures t in WalkFrom(ctx, start, window, confirm, holdDays)
       <==> TradedAtStop(ctx, start, window, confirm, holdDays, t)
    decreases ctx.end - start
  {
    if start > ctx.end {
      forall n: nat, cursor: Date | StopAt(start, window, n, cursor) ensures cursor > ctx.end {
        assert n * window >= 0;
      }
    } else {
      var first := AtCursor(ctx, ctx.universe, start, window, confirm, holdDays);
      var rest := WalkFrom(ctx, start + window, window, confirm, holdDays);
      assert WalkFrom(ctx, start, window, confirm, holdDays) == first + rest;
      WalkStops(ctx, start + window, window, confirm, holdDays, t);
      FirstOrLater(ctx, start, window, confirm, holdDays, t);
    }
  }

  lemma FirstOrLater(ctx: Context, start: Date, window: int, confirm: bool, holdDays: int, t: Trade)
    requires window > 0 && start <= ctx.end
    ensures TradedAtStop(ctx, start, window, confirm, holdDays, t) <==>
      || t in AtCursor(ctx, ctx.universe, start, window, confirm, holdDays)
      || TradedAtStop(ctx, start + window, window, confirm, holdDays, t)
  {
    assert StopAt(start, window, 0, start);
    if TradedAtStop(ctx, start + window, window, confirm, holdDays, t) {
      var n: nat, cursor: Date :| StopAt(start + window, window, n, cursor) && cursor <= ctx.end
        && t in AtCursor(ctx, ctx.universe, cursor, window, confirm, holdDays);
      NextStop(start, window, n, cursor);
    }
    if TradedAtStop(ctx, start, window, confirm, holdDays, t) {
      var n: nat, cursor: Date :| StopAt(start, window, n, cursor) && cursor <= ctx.end
        && t in AtCursor(ctx, ctx.universe, cursor, window, confirm, holdDays);
      if n > 0 {
        NextStop(start, window, n - 1, cursor);
      }
    }
  }

  // ── The event-driven arms ────────────────────────────────────────────────

  function NextDay(e: Event): Date {
    e.date + 1
  }

  /** An event of the universe within the range. */
  predicate InScope(ctx: Context, e: Event) {
    e.ticker in ctx.universe && ctx.start <= e.date && e.date <= ctx.end
  }

  /** The event arm considers exactly the events in scope, when the sort only reorders them. */
  lemma QualifyingAre(ctx: Context)
    requires forall es: seq<Event> :: multiset(ctx.ordered(es)) == multiset(es)
    ensures forall e: Event :: multiset(Qualifying(ctx))[e] == if InScope(ctx, e) then multiset(ctx.events)[e] else 0
  {
    var kept := Filter(ctx.events, e => Qualifies(ctx, e));
    assert multiset(ctx.ordered(kept)) == multiset(kept);
    forall e: Event ensures multiset(kept)[e] == if InScope(ctx, e) then multiset(ctx.events)[e] else 0 {
      FilterCounts(ctx.events, x => Qualifies(ctx, x), e);
    }
  }

  /** The name passes the universe gate at the event and can be entered from the day after it. */
  ghost predicate ActsOn(ctx: Context, e: Event) {
    Gated(ctx.prices, e.ticker, e.date) && CanEnter(ctx, e.ticker, NextDay(e))
  }

  ghost predicate EnteredAfter(ctx: Context, events: seq<Event>, holdDays: int, trades: seq<Trade>) {
    && |trades| == |events|
    && forall i :: 0 <= i < |trades| ==> EntersAt(ctx, events[i].ticker, NextDay(events[i]), holdDays, trades[i])
  }

  lemma OnBeatIs(ctx: Context, e: Event, holdDays: int)
    ensures var ts := OnBeat(ctx, e, holdDays);
      && |ts| == (if ActsOn(ctx, e) then 1 else 0)
      && forall t <- ts :: EntersAt(ctx, e.ticker, NextDay(e), holdDays, t)
  {
    FiredIs(ctx, e.ticker, NextDay(e), holdDays);
    GateIs(ctx, e);
  }

  lemma GateIs(ctx: Context, e: Event)
    ensures PassesUniverseFilters(ctx.prices, e.ticker, e.date) <==> Gated(ctx.prices, e.ticker, e.date)
  {
    UniverseGateIff(ctx.prices, e.ticker, e.date);
  }

  lemma OneMoreEntry(ctx: Context, events: seq<Event>, trades: seq<Trade>, e: Event, more: seq<Trade>, acts: bool,
      holdDays: int)
    requires EnteredAfter(ctx, events, holdDays, trades)
    requires |more| == if acts then 1 else 0
    requires forall t <- more :: EntersAt(ctx, e.ticker, NextDay(e), holdDays, t)
    ensures EnteredAfter(ctx, events + if acts then [e] else [], holdDays, trades + more)
  {
    if acts {
      assert more[0] in more && more == [more[0]];
    }
  }

  lemma EventTradesSnoc(ctx: Context, events: seq<Event>, e: Event, holdDays: int, acts: Event -> bool)
    requires acts(e) <==> ActsOn(ctx, e)
    requires EnteredAfter(ctx, Filter(events, acts), holdDays, OnBeats(ctx, events, holdDays))
    ensures EnteredAfter(ctx, Filter(events + [e], acts), holdDays, OnBeats(ctx, events + [e], holdDays))
  {
    FilterSnoc(events, e, acts);
    OnBeatsSnoc(ctx, events + [e], |events|, holdDays);
    assert (events + [e])[..|events|] == events && (events + [e])[..|events| + 1] == events + [e];
    OnBeatIs(ctx, e, holdDays);
    OneMoreEntry(ctx, Filter(events, acts), OnBeats(ctx, events, holdDays), e, OnBeat(ctx, e, holdDays), acts(e),
                 holdDays);
  }

  /** The trades of the event arm are those of the events it acts on, one for one and in their order. */
  lemma {:induction false} EventTradesAre(ctx: Context, events: seq<Event>, holdDays: int, acts: Event -> bool)
    requires forall e <- events :: acts(e) <==> ActsOn(ctx, e)
    ensures EnteredAfter(ctx, Filter(events, acts), holdDays, OnBeats(ctx, events, holdDays))
  {
    if events != [] {
      var front, last := events[..|events| - 1], events[|events| - 1];
      assert events == front + [last] && last in events;
      EventTradesAre(ctx, front, holdDays, acts);
      EventTradesSnoc(ctx, front, last, holdDays, acts);
    }
  }

  // ── The modes ────────────────────────────────────────────────────────────

  /** What each mode trades: the stops of the walk, those with a beat in the thirty days before, the events
      in scope, and those of them in an expansion. */
  lemma ModesTrade(ctx: Context, window: int, holdDays: int, t: Trade)
    requires window > 0
    ensures t in TradesOf(ctx, Off, window, holdDays) <==>
      ctx.prices != map[] && TradedAtStop(ctx, ctx.start, window, false, holdDays, t)
    ensures t in TradesOf(ctx, PositiveBeat30d, window, holdDays) <==>
      t in TradesOf(ctx, Off, window, holdDays) && BeatBefore(ctx.events, t.ticker, t.entryDate)
    ensures TradesOf(ctx, Beat30dOnly, window, holdDays)
         == OnBeats(ctx, if ctx.events == [] then [] else Qualifying(ctx), holdDays)
    ensures t in TradesOf(ctx, Beat30dOnlyMacroExpansion, window, holdDays) <==>
      && t in TradesOf(ctx, Beat30dOnly, window, holdDays)
      && ctx.regime.Some? && ctx.regime.value(t.entryDate - 1) == "expansion"
  {
    WalkStops(ctx, ctx.start, window, false, holdDays, t);
    PositiveBeatFiltersOff(ctx, window, holdDays);
    FilterMembers(TradesOf(ctx, Off, window, holdDays), BeatAtEntry(ctx));
    BeatIff(ctx.events, t.ticker, t.entryDate);
    MacroFiltersBeatOnly(ctx, window, holdDays);
    FilterMembers(TradesOf(ctx, Beat30dOnly, window, holdDays), ExpansionAtEvent(ctx));
  }
}
