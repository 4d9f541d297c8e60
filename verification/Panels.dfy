/** Daily price panels, as the monthly backtests index them. */
module Panels {
  import opened Prelude

  /** Calendar days as integers. */
  type Date = int
  type Ticker = string

  datatype Bar = Bar(date: Date, open: real, close: real)

  type Panel = seq<Bar>

  /** A dict of panels: its keys in insertion order, and the panel of each. */
  datatype PanelSet = PanelSet(names: seq<Ticker>, bars: map<Ticker, Panel>)

  ghost predicate Sorted(panel: Panel) {
    forall i, j :: 0 <= i < j < |panel| ==> panel[i].date < panel[j].date
  }

  /** Distinct keys, each with a panel in strictly increasing date order. */
  ghost predicate Proper(ps: PanelSet) {
    && (forall i, j :: 0 <= i < j < |ps.names| ==> ps.names[i] != ps.names[j])
    && (forall t :: t in ps.names <==> t in ps.bars)
    && (forall t <- ps.bars :: Sorted(ps.bars[t]))
  }

  /** `df.index.get_loc(date)`. */
  function Find(panel: Panel, date: Date): (k: Option<nat>)
    ensures k.Some? ==> k.value < |panel| && panel[k.value].date == date
    ensures k.None? ==> forall b <- panel :: b.date != date
  {
    if panel == [] then None
    else if panel[0].date == date then Some(0)
    else match Find(panel[1..], date)
      case None => None
      case Some(k) => Some(k + 1)
  }

  lemma FindIs(panel: Panel, k: nat)
    requires Sorted(panel) && k < |panel|
    ensures Find(panel, panel[k].date) == Some(k)
  {
    assert panel[k] in panel;
    var f := Find(panel, panel[k].date).value;
    assert panel[f].date == panel[k].date;
  }

  /** `df.loc[df.index <= date]`. */
  function Trim(panel: Panel, date: Date): Panel {
    Filter(panel, (b: Bar) => b.date <= date)
  }

  /** How many bars are dated on or before `date`. */
  function Seen(panel: Panel, date: Date): (n: nat)
    ensures n <= |panel|
  {
    if panel == [] || panel[0].date > date then 0 else 1 + Seen(panel[1..], date)
  }

  lemma {:induction false} SeenSplits(panel: Panel, date: Date)
    requires Sorted(panel)
    ensures forall i :: 0 <= i < |panel| ==> (panel[i].date <= date <==> i < Seen(panel, date))
  {
    if panel != [] && panel[0].date <= date {
      SeenSplits(panel[1..], date);
    }
  }

  lemma {:induction false} TrimIsPrefix(panel: Panel, date: Date)
    requires Sorted(panel)
    ensures Trim(panel, date) == panel[..Seen(panel, date)]
  {
    if panel != [] {
      TrimIsPrefix(panel[1..], date);
      if panel[0].date <= date {
        assert panel[..Seen(panel, date)] == [panel[0]] + panel[1..][..Seen(panel[1..], date)];
      } else {
        assert Seen(panel[1..], date) == 0;
      }
    }
  }

  /** Trimming keeps a visible bar at its place, and finds no other. */
  lemma TrimFinds(panel: Panel, date: Date)
    requires Sorted(panel)
    ensures Sorted(Trim(panel, date))
    ensures Find(Trim(panel, date), date) == Find(panel, date)
    ensures forall i :: 0 <= i < |Trim(panel, date)| ==> i < |panel| && Trim(panel, date)[i] == panel[i]
    ensures Find(panel, date).Some? ==> |Trim(panel, date)| == Find(panel, date).value + 1
  {
    TrimIsPrefix(panel, date);
    SeenSplits(panel, date);
    var n := Seen(panel, date);
    match Find(panel, date)
    case Some(k) => FindIs(panel[..n], k);
    case None => MissingInPrefix(panel, n, date);
  }

  lemma MissingInPrefix(panel: Panel, n: nat, date: Date)
    requires n <= |panel| && Find(panel, date).None?
    ensures Find(panel[..n], date).None?
  {
    assert forall b <- panel[..n] :: b in panel;
  }

  // ── Rates and costs ──────────────────────────────────────────────────────

  /** `past` grows to `now` at the rate `r`. */
  predicate Grows(past: real, now: real, r: real) {
    (1.0 + r) * past == now
  }

  lemma GrowsIff(past: real, now: real, r: real)
    requires past > 0.0
    ensures Grows(past, now, r) <==> r == now / past - 1.0
  {
    var rate := now / past;
    assert rate * past == now;
    var gap := 1.0 + r - rate;
    assert gap * past == (1.0 + r) * past - now;
    if gap > 0.0 {
      assert gap * past > 0.0;
    } else if gap < 0.0 {
      assert gap * past < 0.0;
    }
  }

  /** Half the name's round-trip cost, or five basis points for a name without one. */
  function Slip(costs: map<Ticker, real>, ticker: Ticker): real {
    if ticker in costs then costs[ticker] / 2.0 else 0.0005
  }

}
