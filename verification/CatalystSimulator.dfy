/** The flat-bracket trade simulator of the catalyst backtest. */
module CatalystSimulator {
  import opened Prelude

  /** Calendar days as integers. */
  type Date = int
  type Ticker = string

  /** One row of a price panel; `close` is None for NaN. Panels are sorted by date. */
  datatype Bar = Bar(date: Date, close: Option<real>, volume: int)

  /** A row that survived dropna(subset=["close"]). */
  datatype Quote = Quote(date: Date, close: real, volume: int)

  datatype ExitReason = StopLoss | TakeProfit | TimeStop

  datatype Trade = Trade(
    ticker: Ticker, entryDate: Date, entryPrice: real, exitDate: Date, exitPrice: real,
    pnl: real, reason: ExitReason)

  const PROFIT_TARGET_PCT := 0.12
  const HARD_STOP_PCT := 0.07

  /** The quoted rows whose date lies in the window. */
  function Quotes(prices: seq<Bar>, inWindow: Date -> bool): (q: seq<Quote>)
    ensures |q| <= |prices|
    ensures forall x <- q :: inWindow(x.date)
  {
    if prices == [] then []
    else
      (if inWindow(prices[0].date) && prices[0].close.Some?
       then [Quote(prices[0].date, prices[0].close.value, prices[0].volume)] else [])
      + Quotes(prices[1..], inWindow)
  }

  function From(entryDate: Date): Date -> bool {
    d => d >= entryDate
  }

  predicate Stopped(entry: real, close: real) {
    close <= entry * (1.0 - HARD_STOP_PCT)
  }

  predicate Targeted(entry: real, close: real) {
    close >= entry * (1.0 + PROFIT_TARGET_PCT)
  }

  predicate Hit(entry: real, close: real) {
    Stopped(entry, close) || Targeted(entry, close)
  }

  /** The trailing-stop test of the source, armed at +8% and tripped 5% below the peak. */
  predicate Trailed(entry: real, close: real, highWater: real) {
    close >= entry * 1.08 && close <= highWater * 0.95
  }

  function Horizon(cut: seq<Quote>, holdDays: int): nat
    requires |cut| >= 2
  {
    var wanted := if holdDays > 1 then holdDays else 1;
    if |cut| - 1 < wanted then |cut| - 1 else wanted
  }

  /** The first index from `i` on at which a barrier is hit, or the horizon. */
  function Passage(cut: seq<Quote>, i: nat, horizon: nat): (k: nat)
    requires 1 <= i <= horizon < |cut|
    ensures i <= k <= horizon
    ensures k < horizon ==> Hit(cut[0].close, cut[k].close)
    ensures forall j :: i <= j < k ==> !Hit(cut[0].close, cut[j].close)
    decreases horizon - i
  {
    if Hit(cut[0].close, cut[i].close) || i == horizon then i else Passage(cut, i + 1, horizon)
  }

  function ReasonAt(entry: real, close: real): ExitReason {
    if Stopped(entry, close) then StopLoss else if Targeted(entry, close) then TakeProfit else TimeStop
  }

  /** First passage of two barriers, with a time stop: what the simulator computes. */
  function Simulated(ticker: Ticker, entryDate: Date, prices: seq<Bar>, cost: real, holdDays: int): Option<Trade> {
    var cut := Quotes(prices, From(entryDate));
    if |cut| < 2 || cut[0].close <= 0.0 then None
    else
      var entry, k := cut[0].close, Passage(cut, 1, Horizon(cut, holdDays));
      Some(Trade(ticker, entryDate, entry, cut[k].date, cut[k].close,
                 (cut[k].close - entry) / entry - cost, ReasonAt(entry, cut[k].close)))
  }

  /** The simulator as the source runs it: one pass with a high-water mark and four ways out. */
  method SimulateTrade(ticker: Ticker, entryDate: Date, prices: seq<Bar>, cost: real, holdDays: int)
    returns (trade: Option<Trade>)
    ensures trade == Simulated(ticker, entryDate, prices, cost, holdDays)
  {
    var cut := Quotes(prices, From(entryDate));
    if |cut| < 2 {
      return None;
    }
    var entryPrice := cut[0].close;
    if entryPrice <= 0.0 {
      return None;
    }
    var tp := entryPrice * (1.0 + PROFIT_TARGET_PCT);
    var sl := entryPrice * (1.0 - HARD_STOP_PCT);
    var exitIdx := -1;
    var exitReason := TimeStop;
    var highWater := entryPrice;
    var horizon := Horizon(cut, holdDays);
    var i := 1;
    while i <= horizon
      invariant 1 <= i <= horizon + 1
      invariant exitIdx == -1 && exitReason == TimeStop
      invariant entryPrice <= highWater < tp
      invariant forall j :: 1 <= j < i ==> !Hit(entryPrice, cut[j].close)
      invariant i <= horizon ==> Passage(cut, 1, horizon) == Passage(cut, i, horizon)
    {
      var close := cut[i].close;
      if close <= sl {
        exitIdx := i;
        exitReason := StopLoss;
        break;
      }
      if close >= tp {
        exitIdx := i;
        exitReason := TakeProfit;
        break;
      }
      if close > highWater {
        highWater := close;
      }
      if close >= entryPrice * 1.08 && close <= highWater * 0.95 {
        exitIdx := i;
        exitReason := TimeStop;
        break;
      }
      i := i + 1;
    }
    if exitIdx < 0 {
      exitIdx := horizon;
      exitReason := TimeStop;
    }
    var exitPrice := cut[exitIdx].close;
    var grossRet := (exitPrice - entryPrice) / entryPrice;
    trade := Some(Trade(ticker, entryDate, entryPrice, cut[exitIdx].date, exitPrice, grossRet - cost, exitReason));
  }

  /** The highest close up to index `i`, as the loop's high-water mark records it. */
  function HighWater(cut: seq<Quote>, i: nat): (h: real)
    requires i < |cut|
    ensures forall j :: 0 <= j <= i ==> cut[j].close <= h
    ensures exists j :: 0 <= j <= i && cut[j].close == h
  {
    if i == 0 then cut[0].close
    else if cut[i].close > HighWater(cut, i - 1) then cut[i].close else HighWater(cut, i - 1)
  }

  /** The trailing stop is unreachable: as long as no barrier was hit, the peak stays below the
      target, and 95% of a peak below +12% lies below the +8% at which the trail arms. */
  lemma TrailingStopNeverFires(cut: seq<Quote>, i: nat)
    requires i < |cut| && cut[0].close > 0.0
    requires forall j :: 1 <= j <= i ==> !Hit(cut[0].close, cut[j].close)
    ensures cut[0].close <= HighWater(cut, i) < cut[0].close * (1.0 + PROFIT_TARGET_PCT)
    ensures !Trailed(cut[0].close, cut[i].close, HighWater(cut, i))
  {
    var entry, h := cut[0].close, HighWater(cut, i);
    var k :| 0 <= k <= i && cut[k].close == h;
    assert h * 0.95 < entry * 1.12 * 0.95;
  }

  /** The quotes are the rows with a close dated on or after the entry date, in order. */
  ghost predicate QuotedFrom(prices: seq<Bar>, entryDate: Date, cut: seq<Quote>) {
    var kept := Filter(prices, (b: Bar) => b.date >= entryDate && b.close.Some?);
    && |cut| == |kept|
    && forall i :: 0 <= i < |cut| ==>
         kept[i].close.Some? && cut[i] == Quote(kept[i].date, kept[i].close.value, kept[i].volume)
  }

  lemma {:induction false} QuotesAre(prices: seq<Bar>, inWindow: Date -> bool, kept: Bar -> bool)
    requires forall b <- prices :: kept(b) <==> inWindow(b.date) && b.close.Some?
    ensures var q, bars := Quotes(prices, inWindow), Filter(prices, kept);
      && |q| == |bars|
      && forall i :: 0 <= i < |q| ==>
           bars[i].close.Some? && q[i] == Quote(bars[i].date, bars[i].close.value, bars[i].volume)
  {
    if prices != [] {
      QuotesAre(prices[1..], inWindow, kept);
    }
  }

  /** At -7% or below, or at +12% or above. */
  predicate AtBarrier(entry: real, close: real)
    requires entry > 0.0
  {
    (close - entry) / entry <= -0.07 || (close - entry) / entry >= 0.12
  }

  /** The exit is the first bar, counted from the one after the entry, that closes at a barrier, or else the
      bar `holdDays` on, one at least, or else the last there is; the reason says which barrier, and the
      return is that bar's less the cost. */
  ghost predicate ExitsAt(cut: seq<Quote>, cost: real, holdDays: int, t: Trade, k: nat)
    requires cut != [] && cut[0].close > 0.0
  {
    var held, gross := if holdDays > 1 then holdDays else 1, t.pnl + cost;
    && 1 <= k <= held && k < |cut|
    && t.entryPrice == cut[0].close && t.exitPrice == cut[k].close && t.exitDate == cut[k].date
    && gross == (cut[k].close - cut[0].close) / cut[0].close
    && (forall j :: 1 <= j < k ==> !AtBarrier(cut[0].close, cut[j].close))
    && (AtBarrier(cut[0].close, cut[k].close) || k == held || k == |cut| - 1)
    && (t.reason == StopLoss <==> gross <= -0.07)
    && (t.reason == TakeProfit <==> gross >= 0.12)
  }

  /** A trade is made exactly when there are two quotes from the entry date on and the first is positive. */
  lemma FirstPassage(ticker: Ticker, entryDate: Date, prices: seq<Bar>, cost: real, holdDays: int)
    ensures var cut := Quotes(prices, From(entryDate));
      var r := Simulated(ticker, entryDate, prices, cost, holdDays);
      && QuotedFrom(prices, entryDate, cut)
      && (r.Some? <==> |cut| >= 2 && cut[0].close > 0.0)
      && (r.Some? ==>
            && r.value.ticker == ticker && r.value.entryDate == entryDate
            && exists k: nat :: ExitsAt(cut, cost, holdDays, r.value, k))
  {
    var cut := Quotes(prices, From(entryDate));
    QuotesAre(prices, From(entryDate), (b: Bar) => b.date >= entryDate && b.close.Some?);
    if |cut| >= 2 && cut[0].close > 0.0 {
      var entry, k := cut[0].close, Passage(cut, 1, Horizon(cut, holdDays));
      forall j | 0 <= j < |cut| ensures Hit(entry, cut[j].close) <==> AtBarrier(entry, cut[j].close) {
        GrossBarriers(entry, cut[j].close);
      }
      GrossBarriers(entry, cut[k].close);
      assert ExitsAt(cut, cost, holdDays, Simulated(ticker, entryDate, prices, cost, holdDays).value, k);
    }
  }

  lemma GrossBarriers(entry: real, close: real)
    requires entry > 0.0
    ensures Stopped(entry, close) <==> (close - entry) / entry <= -HARD_STOP_PCT
    ensures Targeted(entry, close) <==> (close - entry) / entry >= PROFIT_TARGET_PCT
  {
    var gross := (close - entry) / entry;
    assert close == entry + gross * entry;
    if gross <= -HARD_STOP_PCT {
      assert gross * entry <= -HARD_STOP_PCT * entry;
    } else {
      assert gross * entry > -HARD_STOP_PCT * entry;
    }
    if gross >= PROFIT_TARGET_PCT {
      assert gross * entry >= PROFIT_TARGET_PCT * entry;
    } else {
      assert gross * entry < PROFIT_TARGET_PCT * entry;
    }
  }

  lemma {:induction false} LongerPassage(cut: seq<Quote>, i: nat, short: nat, long: nat)
    requires 1 <= i <= short <= long < |cut|
    ensures Passage(cut, i, short) <= Passage(cut, i, long)
    ensures Hit(cut[0].close, cut[Passage(cut, i, short)].close) ==> Passage(cut, i, short) == Passage(cut, i, long)
    decreases short - i
  {
    if !Hit(cut[0].close, cut[i].close) && i < short {
      LongerPassage(cut, i + 1, short, long);
    }
  }

  predicate SortedByDate(prices: seq<Bar>) {
    forall i, j :: 0 <= i < j < |prices| ==> prices[i].date < prices[j].date
  }

  predicate SortedQuotes(q: seq<Quote>) {
    forall i, j :: 0 <= i < j < |q| ==> q[i].date < q[j].date
  }

  lemma {:induction false} QuotesSorted(prices: seq<Bar>, inWindow: Date -> bool)
    requires SortedByDate(prices)
    ensures SortedQuotes(Quotes(prices, inWindow))
    ensures forall x <- Quotes(prices, inWindow) :: exists b <- prices :: b.date == x.date
  {
    if prices != [] {
      var rest := Quotes(prices[1..], inWindow);
      QuotesSorted(prices[1..], inWindow);
      forall x <- rest ensures prices[0].date < x.date {
        var b :| b in prices[1..] && b.date == x.date;
      }
      var q := Quotes(prices, inWindow);
      if q != rest {
        assert q == [q[0]] + rest && q[0].date == prices[0].date;
        forall i, j | 0 <= i < j < |q| ensures q[i].date < q[j].date {
          assert q[j] == rest[j - 1] && rest[j - 1] in rest;
          assert i > 0 ==> q[i] == rest[i - 1];
        }
      }
    }
  }

  /** Holding longer never changes a trade that left at a barrier and never makes an exit earlier. */
  lemma LongerHoldIsMonotone(ticker: Ticker, entryDate: Date, prices: seq<Bar>, cost: real, short: int, long: int)
    requires short <= long && SortedByDate(prices)
    ensures var a := Simulated(ticker, entryDate, prices, cost, short);
      var b := Simulated(ticker, entryDate, prices, cost, long);
      && (a.Some? <==> b.Some?)
      && (a.Some? ==> a.value.exitDate <= b.value.exitDate && (a.value.reason != TimeStop ==> a == b))
  {
    var cut := Quotes(prices, From(entryDate));
    if |cut| >= 2 && cut[0].close > 0.0 {
      LongerPassage(cut, 1, Horizon(cut, short), Horizon(cut, long));
      QuotesSorted(prices, From(entryDate));
      var a, b := Passage(cut, 1, Horizon(cut, short)), Passage(cut, 1, Horizon(cut, long));
      assert a < b ==> cut[a].date < cut[b].date;
    }
  }
}
