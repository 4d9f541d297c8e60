/** Two-run properties: what the momentum backtests select at a rebalance date depends only on what
    is dated on or before it. */
module NoLookAhead {
  import opened Prelude
  import opened Panels
  import opened Momentum
  import Carver

  /** The panels as far as they are visible at `rd`, without the names that have no bar yet. */
  function Known(bars: map<Ticker, Panel>, names: seq<Ticker>, rd: Date): seq<(Ticker, Panel)>
    requires forall t <- names :: t in bars
  {
    if names == [] then []
    else
      var k := |names| - 1;
      Known(bars, names[..k], rd)
      + (if Trim(bars[names[k]], rd) == [] then [] else [(names[k], Trim(bars[names[k]], rd))])
  }

  /** The name has a bar dated on or before `rd`. */
  predicate Visible(ps: PanelSet, t: Ticker, rd: Date) {
    t in ps.bars && exists b <- ps.bars[t] :: b.date <= rd
  }

  function VisibleNames(ps: PanelSet, rd: Date): seq<Ticker> {
    Filter(ps.names, (t: Ticker) => Visible(ps, t, rd))
  }

  predicate HasBar(ps: PanelSet, t: Ticker, bar: Bar) {
    t in ps.bars && bar in ps.bars[t]
  }

  /** Two panel sets with the same past: every bar dated on or before `rd` is in one if and only if it is
      in the other, and the names that have such a bar come in the same key order. */
  ghost predicate SamePast(a: PanelSet, b: PanelSet, rd: Date) {
    && Proper(a) && Proper(b)
    && (forall t: Ticker, bar: Bar :: bar.date <= rd ==> (HasBar(a, t, bar) <==> HasBar(b, t, bar)))
    && VisibleNames(a, rd) == VisibleNames(b, rd)
  }

  /** Two input sets that agree on everything dated on or before `rd`: the bars, the beats announced so
      far, and the undated parameters. */
  ghost predicate SameHistory(a: Inputs, b: Inputs, rd: Date) {
    && SamePast(a.panels, b.panels, rd)
    && a.params == b.params && a.tradeable == b.tradeable && a.realized == b.realized
    && forall t: Ticker, e: (Date, real) :: e.0 <= rd ==>
         ((t in a.beats && e in a.beats[t]) <==> (t in b.beats && e in b.beats[t]))
  }

  // ── The same bars make the same trimmed panels ───────────────────────────

  lemma {:induction false} SameBarsSamePanel(p: Panel, q: Panel)
    requires Sorted(p) && Sorted(q)
    requires forall b: Bar :: b in p <==> b in q
    ensures p == q
  {
    if p == [] {
      NoBars(q);
    } else {
      assert p[0] in q;
      assert q[0] in p;
      assert p[0] == q[0];
      forall b: Bar ensures b in p[1..] <==> b in q[1..] {
        if b in p[1..] {
          assert b in p && b.date > p[0].date;
        }
        if b in q[1..] {
          assert b in q && b.date > q[0].date;
        }
      }
      SameBarsSamePanel(p[1..], q[1..]);
    }
  }

  lemma NoBars(q: Panel)
    ensures q == [] || exists b: Bar :: b in q
  {
    if q != [] {
      assert q[0] in q;
    }
  }

  lemma SameTrim(a: PanelSet, b: PanelSet, t: Ticker, rd: Date)
    requires SamePast(a, b, rd) && t in a.bars && t in b.bars
    ensures Trim(a.bars[t], rd) == Trim(b.bars[t], rd)
  {
    TrimFinds(a.bars[t], rd);
    TrimFinds(b.bars[t], rd);
    FilterMembers(a.bars[t], (x: Bar) => x.date <= rd);
    FilterMembers(b.bars[t], (x: Bar) => x.date <= rd);
    forall x: Bar ensures x in Trim(a.bars[t], rd) <==> x in Trim(b.bars[t], rd) {
      assert x.date <= rd ==> (HasBar(a, t, x) <==> HasBar(b, t, x));
    }
    SameBarsSamePanel(Trim(a.bars[t], rd), Trim(b.bars[t], rd));
  }

  lemma TrimIsVisible(ps: PanelSet, t: Ticker, rd: Date)
    requires t in ps.bars
    ensures Visible(ps, t, rd) <==> Trim(ps.bars[t], rd) != []
  {
    FilterMembers(ps.bars[t], (x: Bar) => x.date <= rd);
    NoBars(Trim(ps.bars[t], rd));
  }

  /** The names of a visible view. */
  function NamesOf(known: seq<(Ticker, Panel)>): seq<Ticker> {
    if known == [] then [] else NamesOf(known[..|known| - 1]) + [known[|known| - 1].0]
  }

  lemma NamesSnoc(known: seq<(Ticker, Panel)>, named: (Ticker, Panel))
    ensures NamesOf(known + [named]) == NamesOf(known) + [named.0]
  {
    assert (known + [named])[..|known|] == known;
  }

  lemma {:induction false} TrimmedNames(ps: PanelSet, names: seq<Ticker>, rd: Date, shown: Ticker -> bool)
    requires forall t <- names :: t in ps.bars && (shown(t) <==> Trim(ps.bars[t], rd) != [])
    ensures Filter(names, shown) == NamesOf(Known(ps.bars, names, rd))
  {
    if names != [] {
      var init, last := names[..|names| - 1], names[|names| - 1];
      var known := Known(ps.bars, init, rd);
      TrimmedNames(ps, init, rd, shown);
      assert names == init + [last];
      FilterSnoc(init, last, shown);
      NamesSnoc(known, (last, Trim(ps.bars[last], rd)));
      assert known + [] == known;
    }
  }

  /** Two views with the same names and the same panel for each name are the same view. */
  lemma {:induction false} SameView(p: seq<(Ticker, Panel)>, q: seq<(Ticker, Panel)>)
    requires NamesOf(p) == NamesOf(q)
    requires forall x <- p, y <- q :: x.0 == y.0 ==> x.1 == y.1
    ensures p == q
  {
    if p == [] || q == [] {
      NamesCount(p);
      NamesCount(q);
    } else {
      var k, m := |p| - 1, |q| - 1;
      var front, back := NamesOf(p[..k]), NamesOf(q[..m]);
      assert front + [p[k].0] == back + [q[m].0];
      assert |front| == |back| && (front + [p[k].0])[..|front|] == front && (back + [q[m].0])[..|back|] == back;
      assert (front + [p[k].0])[|front|] == p[k].0 && (back + [q[m].0])[|back|] == q[m].0;
      SameView(p[..k], q[..m]);
      assert p[k] in p && q[m] in q;
      assert p == p[..k] + [p[k]] && q == q[..m] + [q[m]];
    }
  }

  lemma {:induction false} NamesCount(known: seq<(Ticker, Panel)>)
    ensures |NamesOf(known)| == |known|
  {
    if known != [] {
      NamesCount(known[..|known| - 1]);
    }
  }

  /** The same past, bar by bar, is the same visible view. */
  lemma SamePastSameView(a: PanelSet, b: PanelSet, rd: Date)
    requires SamePast(a, b, rd)
    ensures Known(a.bars, a.names, rd) == Known(b.bars, b.names, rd)
  {
    ViewNames(a, rd);
    ViewNames(b, rd);
    var p, q := Known(a.bars, a.names, rd), Known(b.bars, b.names, rd);
    forall x <- p, y <- q | x.0 == y.0 ensures x.1 == y.1 {
      KnownMember(a.bars, a.names, rd, x.0);
      KnownMember(b.bars, b.names, rd, y.0);
      SameTrim(a, b, x.0, rd);
    }
    SameView(p, q);
  }

  lemma ViewNames(ps: PanelSet, rd: Date)
    requires Proper(ps)
    ensures VisibleNames(ps, rd) == NamesOf(Known(ps.bars, ps.names, rd))
  {
    forall t <- ps.names ensures Visible(ps, t, rd) <==> Trim(ps.bars[t], rd) != [] {
      TrimIsVisible(ps, t, rd);
    }
    TrimmedNames(ps, ps.names, rd, (t: Ticker) => Visible(ps, t, rd));
  }

  lemma {:induction false} KnownMember(bars: map<Ticker, Panel>, names: seq<Ticker>, rd: Date, t: Ticker)
    requires forall n <- names :: n in bars
    ensures t in names && Trim(bars[t], rd) != [] ==> (t, Trim(bars[t], rd)) in Known(bars, names, rd)
    ensures forall x <- Known(bars, names, rd) :: x.0 in names && x.1 == Trim(bars[x.0], rd)
  {
    if names != [] {
      KnownMember(bars, names[..|names| - 1], rd, t);
    }
  }

  // ── Momentum ─────────────────────────────────────────────────────────────

  lemma ScoreOnPrefix(inp: Inputs, ticker: Ticker, panel: Panel, n: nat, rd: Date)
    requires n <= |panel| && Find(panel[..n], rd) == Find(panel, rd)
    ensures ScoreOf(inp, ticker, panel, rd) == ScoreOf(inp, ticker, panel[..n], rd)
  {
  }

  lemma ScoreSeesOnlyThePast(inp: Inputs, ticker: Ticker, panel: Panel, rd: Date)
    requires Sorted(panel)
    ensures ScoreOf(inp, ticker, panel, rd) == ScoreOf(inp, ticker, Trim(panel, rd), rd)
  {
    TrimIsPrefix(panel, rd);
    TrimFinds(panel, rd);
    ScoreOnPrefix(inp, ticker, panel, Seen(panel, rd), rd);
  }

  lemma SigmaSeesOnlyThePast(inp: Inputs, panel: Panel, rd: Date)
    requires Sorted(panel) && Find(panel, rd).Some?
    ensures Find(Trim(panel, rd), rd).Some?
    ensures SigmaAt(inp, panel, rd) == SigmaAt(inp, Trim(panel, rd), rd)
  {
    TrimFinds(panel, rd);
    var entry := Find(panel, rd).value + 1;
    var lo := if entry < VOL_WINDOW then 0 else entry - VOL_WINDOW;
    assert panel[lo..entry] == Trim(panel, rd)[lo..entry];
  }

  /** The scores of visible panels alone. */
  function KnownScores(inp: Inputs, known: seq<(Ticker, Panel)>, rd: Date): seq<Scored> {
    if known == [] then []
    else
      var k := |known| - 1;
      KnownScores(inp, known[..k], rd)
      + match ScoreOf(inp, known[k].0, known[k].1, rd)
        case None => []
        case Some(s) => [Scored(known[k].0, s)]
  }

  lemma {:induction false} ScoresAreKnown(inp: Inputs, names: seq<Ticker>, rd: Date)
    requires forall t <- names :: t in inp.panels.bars && Sorted(inp.panels.bars[t])
    ensures Scores(inp, names, rd) == KnownScores(inp, Known(inp.panels.bars, names, rd), rd)
  {
    if names != [] {
      var k := |names| - 1;
      var panel := inp.panels.bars[names[k]];
      ScoresAreKnown(inp, names[..k], rd);
      ScoreSeesOnlyThePast(inp, names[k], panel, rd);
      var known := Known(inp.panels.bars, names[..k], rd);
      if Trim(panel, rd) == [] {
        assert known + [] == known;
      } else {
        assert (known + [(names[k], Trim(panel, rd))])[..|known|] == known;
      }
    }
  }

  lemma {:induction false} KnownScoresSame(a: Inputs, b: Inputs, known: seq<(Ticker, Panel)>, rd: Date)
    requires a.params == b.params && a.tradeable == b.tradeable
    ensures KnownScores(a, known, rd) == KnownScores(b, known, rd)
  {
    if known != [] {
      KnownScoresSame(a, b, known[..|known| - 1], rd);
    }
  }

  /** One selected name, with everything that is decided about it at the rebalance date. */
  datatype Pick = Pick(ticker: Ticker, score: real, hasBeat: bool, sigma: real, volScale: real)

  function PickOf(inp: Inputs, x: Scored, rd: Date): Pick
    requires x.ticker in inp.panels.bars && Find(inp.panels.bars[x.ticker], rd).Some?
  {
    var sigma := SigmaAt(inp, inp.panels.bars[x.ticker], rd);
    Pick(x.ticker, x.score, HasRecentBeat(inp, x.ticker, rd), sigma, VolScale(sigma))
  }

  lemma BeatSeesOnlyThePast(a: Inputs, b: Inputs, ticker: Ticker, rd: Date)
    requires SameHistory(a, b, rd)
    ensures HasRecentBeat(a, ticker, rd) <==> HasRecentBeat(b, ticker, rd)
  {
    if HasRecentBeat(a, ticker, rd) {
      var e :| e in a.beats[ticker] && rd - EARNINGS_LOOKBACK_DAYS <= e.0 <= rd && e.1 > 0.0;
      assert e in b.beats[ticker];
    }
    if HasRecentBeat(b, ticker, rd) {
      var e :| e in b.beats[ticker] && rd - EARNINGS_LOOKBACK_DAYS <= e.0 <= rd && e.1 > 0.0;
      assert e in a.beats[ticker];
    }
  }

  lemma PickSeesOnlyThePast(a: Inputs, b: Inputs, x: Scored, rd: Date)
    requires SameHistory(a, b, rd)
    requires x.ticker in a.panels.bars && Find(a.panels.bars[x.ticker], rd).Some?
    requires x.ticker in b.panels.bars && Find(b.panels.bars[x.ticker], rd).Some?
    ensures PickOf(a, x, rd) == PickOf(b, x, rd)
  {
    assert SigmaAt(a, a.panels.bars[x.ticker], rd) == SigmaAt(b, b.panels.bars[x.ticker], rd) by {
      SigmaSeesOnlyThePast(a, a.panels.bars[x.ticker], rd);
      SigmaSeesOnlyThePast(b, b.panels.bars[x.ticker], rd);
      SameTrim(a.panels, b.panels, x.ticker, rd);
    }
    BeatSeesOnlyThePast(a, b, x.ticker, rd);
  }

  /** No look-ahead: two worlds with the same history up to the rebalance date give the same scores,
      the same ranked top decile, and for each pick the same beat verdict and the same vol-scale. */
  lemma SelectionSeesOnlyThePast(a: Inputs, b: Inputs, rd: Date)
    requires SameHistory(a, b, rd)
    ensures Scores(a, a.panels.names, rd) == Scores(b, b.panels.names, rd)
    ensures TopDecile(a, rd) == TopDecile(b, rd)
    ensures Pickable(a, TopDecile(a, rd), rd) && Pickable(b, TopDecile(b, rd), rd)
    ensures forall x <- TopDecile(a, rd) :: PickOf(a, x, rd) == PickOf(b, x, rd)
  {
    SamePastSameView(a.panels, b.panels, rd);
    ScoresAreKnown(a, a.panels.names, rd);
    ScoresAreKnown(b, b.panels.names, rd);
    KnownScoresSame(a, b, Known(a.panels.bars, a.panels.names, rd), rd);
    TopIsPickable(a, rd);
    TopIsPickable(b, rd);
    forall x <- TopDecile(a, rd) ensures PickOf(a, x, rd) == PickOf(b, x, rd) {
      PickSeesOnlyThePast(a, b, x, rd);
    }
  }

  // ── The sign of the skip ─────────────────────────────────────────────────

  /** `df.iloc[i]`: a negative position counts from the end, one out of range raises (None). */
  function Iloc(panel: Panel, i: int): Option<Bar> {
    if 0 <= i < |panel| then Some(panel[i])
    else if -|panel| <= i < 0 then Some(panel[|panel| + i])
    else None
  }

  /** The scoring body for a skip of either sign, as an override may set it; None is an IndexError. */
  function SignedScore(inp: Inputs, skip: int, ticker: Ticker, panel: Panel, rd: Date): Option<Option<real>> {
    match Find(panel, rd)
    case None => Some(None)
    case Some(idx) =>
      if idx < skip + inp.params.lookback then Some(None)
      else
        var now, past := Iloc(panel, idx - skip), Iloc(panel, idx - skip - inp.params.lookback);
        if now.None? || past.None? then None
        else Some(ScoreFrom(inp, ticker, now.value.close, past.value.close))
  }

  lemma SignedIsScoreOf(inp: Inputs, skip: nat, ticker: Ticker, panel: Panel, rd: Date)
    ensures SignedScore(inp, skip, ticker, panel, rd)
         == Some(ScoreOf(inp.(params := inp.params.(skip := skip)), ticker, panel, rd))
  {
  }

  /** No bar dated after the rebalance changes what scoring a panel does. */
  ghost predicate BlindToFuture(inp: Inputs, skip: int) {
    forall ticker: Ticker, panel: Panel, rd: Date :: Sorted(panel) ==>
      SignedScore(inp, skip, ticker, panel, rd) == SignedScore(inp, skip, ticker, Trim(panel, rd), rd)
  }

  lemma BlindWhenNotNegative(inp: Inputs, skip: nat, ticker: Ticker, panel: Panel, rd: Date)
    requires Sorted(panel)
    ensures SignedScore(inp, skip, ticker, panel, rd) == SignedScore(inp, skip, ticker, Trim(panel, rd), rd)
  {
    ScoreSeesOnlyThePast(inp.(params := inp.params.(skip := skip)), ticker, panel, rd);
    SignedIsScoreOf(inp, skip, ticker, panel, rd);
    SignedIsScoreOf(inp, skip, ticker, Trim(panel, rd), rd);
  }

  /** Scoring is blind to the future for a skip of zero or more and for no other: with a negative one it
      reads, or fails to find, a bar after the rebalance. */
  lemma BlindIffSkipNotNegative(inp: Inputs, skip: int)
    ensures BlindToFuture(inp, skip) <==> skip >= 0
  {
    if skip >= 0 {
      forall ticker: Ticker, panel: Panel, rd: Date | Sorted(panel)
        ensures SignedScore(inp, skip, ticker, panel, rd) == SignedScore(inp, skip, ticker, Trim(panel, rd), rd)
      {
        BlindWhenNotNegative(inp, skip, ticker, panel, rd);
      }
    } else {
      var idx: nat := if skip + inp.params.lookback > 0 then skip + inp.params.lookback else 0;
      var panel := seq(idx - skip + 1, i => Bar(i, 1.0, 1.0));
      FindIs(panel, idx);
      TrimFinds(panel, idx);
      assert SignedScore(inp, skip, "", panel, idx).Some?;
      assert SignedScore(inp, skip, "", Trim(panel, idx), idx).None?;
    }
  }

  // ── Carver ───────────────────────────────────────────────────────────────

  /** Carver's detector is shown the same panels, and so names the same candidates, in any two worlds
      that agree on the bars dated on or before the rebalance. */
  lemma CandidatesSeeOnlyThePast(setup: Carver.Setup, a: PanelSet, b: PanelSet, ts: Date)
    requires SamePast(a, b, ts)
    ensures setup.detect(Carver.Trimmed(a, ts), ts) == setup.detect(Carver.Trimmed(b, ts), ts)
  {
    SamePastSameView(a, b, ts);
    TrimmedNames(a, a.names, ts, (t: Ticker) => t in a.bars && Trim(a.bars[t], ts) != []);
    TrimmedNames(b, b.names, ts, (t: Ticker) => t in b.bars && Trim(b.bars[t], ts) != []);
    ViewIncluded(a, b, ts);
    ViewIncluded(b, a, ts);
    SameMap(Carver.Trimmed(a, ts).bars, Carver.Trimmed(b, ts).bars);
  }

  ghost predicate Included(m: map<Ticker, Panel>, n: map<Ticker, Panel>) {
    forall t <- m :: t in n && n[t] == m[t]
  }

  lemma SameMap(m: map<Ticker, Panel>, n: map<Ticker, Panel>)
    requires Included(m, n) && Included(n, m)
    ensures m == n
  {
  }

  lemma ViewIncluded(a: PanelSet, b: PanelSet, ts: Date)
    requires Proper(a) && Proper(b) && Known(a.bars, a.names, ts) == Known(b.bars, b.names, ts)
    ensures Included(Carver.Trimmed(a, ts).bars, Carver.Trimmed(b, ts).bars)
  {
    forall t <- Carver.Trimmed(a, ts).bars
      ensures t in Carver.Trimmed(b, ts).bars && Carver.Trimmed(b, ts).bars[t] == Carver.Trimmed(a, ts).bars[t]
    {
      TrimmedView(a, ts, t);
      TrimmedView(b, ts, t);
    }
  }

  lemma TrimmedView(ps: PanelSet, ts: Date, t: Ticker)
    requires Proper(ps)
    ensures t in Carver.Trimmed(ps, ts).bars ==> (t, Carver.Trimmed(ps, ts).bars[t]) in Known(ps.bars, ps.names, ts)
    ensures forall p: Panel :: (t, p) in Known(ps.bars, ps.names, ts) ==>
      t in Carver.Trimmed(ps, ts).bars && Carver.Trimmed(ps, ts).bars[t] == p
  {
    KnownMember(ps.bars, ps.names, ts, t);
    KnownNonempty(ps.bars, ps.names, ts);
  }

  lemma {:induction false} KnownNonempty(bars: map<Ticker, Panel>, names: seq<Ticker>, rd: Date)
    requires forall n <- names :: n in bars
    ensures forall x <- Known(bars, names, rd) :: x.1 != []
  {
    if names != [] {
      KnownNonempty(bars, names[..|names| - 1], rd);
    }
  }
}
