/** The mutable override globals of the momentum and catalyst backtests: what one run sees of the runs
    before it, raising ones included, and what it leaves behind. */
module Overrides {
  import opened Prelude
  import opened CatalystModes

  /** An override value, with what `int()`, `float()` and `str()` make of it; None is a raise. */
  datatype Raw = Raw(asInt: Option<int>, asReal: Option<real>, text: string)

  type Overrides = map<string, Raw>

  /** What assigning a global from its override does: nothing when the conversion raises. */
  type Write<V> = Option<Option<V>>

  function IntWrite(ov: Overrides, key: string): Write<int> {
    if key !in ov then Some(None) else if ov[key].asInt.Some? then Some(ov[key].asInt) else None
  }

  function RealWrite(ov: Overrides, key: string): Write<real> {
    if key !in ov then Some(None) else if ov[key].asReal.Some? then Some(ov[key].asReal) else None
  }

  function TextWrite(ov: Overrides, key: string): Write<string> {
    if key !in ov then Some(None) else Some(Some(ov[key].text))
  }

  /** A write that is reached only if the one before it did not raise. */
  function Then<U, V>(first: Write<U>, second: Write<V>): Write<V> {
    if first.Some? then second else None
  }

  function Written<V>(write: Write<V>, before: Option<V>): Option<V> {
    if write.Some? then write.value else before
  }

  /** What a global, at first None, holds after a history of writes. */
  function LastSet<V>(writes: seq<Write<V>>): Option<V> {
    if writes == [] then None else Written(writes[|writes| - 1], LastSet(writes[..|writes| - 1]))
  }

  predicate SetsLast<V(==)>(writes: seq<Write<V>>, i: nat, v: V) {
    i < |writes| && writes[i] == Some(Some(v)) && forall j :: i < j < |writes| ==> writes[j].None?
  }

  lemma {:induction false} LastSetIff<V>(writes: seq<Write<V>>, v: V)
    ensures LastSet(writes) == Some(v) <==> exists i: nat :: SetsLast(writes, i, v)
  {
    if writes != [] {
      var init, last := writes[..|writes| - 1], writes[|writes| - 1];
      LastSetIff(init, v);
      if last == Some(Some(v)) {
        assert SetsLast(writes, |init|, v);
      }
      if last.None? {
        forall i: nat ensures SetsLast(writes, i, v) <==> SetsLast(init, i, v) {
        }
      }
    }
  }

  // ── Momentum: set at the start of a run, never reset ─────────────────────

  datatype Knobs = Knobs(lookback: int, skip: int, hold: int, topDecile: real)

  const DEFAULTS := Knobs(231, 21, 21, 0.10)

  type Costs = map<string, real>

  /** A preloaded window. The two backtests stand for everything a run computes from the knobs and the
      cost table; None is a raise. */
  datatype Window<!T> = Window(empty: bool, costs: Costs, legacy: (Knobs, Costs) -> Option<T>, volManaged: (Knobs,
      Costs) -> Option<T>)

  datatype Report<T> =
    | Raised
    | EmptyLegacy(overrides: Overrides)
    | EmptyVolManaged(knobs: Knobs)
    | Ran(result: T, knobs: Knobs, mode: string)

  datatype Globals = Globals(
    lookback: Option<int>, skip: Option<int>, hold: Option<int>, topDecile: Option<real>,
    mode: Option<string>, costs: Costs)

  const CLEAN := Globals(None, None, None, None, None, map[])

  /** `default_params()`: it reads the globals, not the constants. */
  function DefaultParams(g: Globals): Knobs {
    Knobs(g.lookback.UnwrapOr(DEFAULTS.lookback), g.skip.UnwrapOr(DEFAULTS.skip),
      g.hold.UnwrapOr(DEFAULTS.hold), g.topDecile.UnwrapOr(DEFAULTS.topDecile))
  }

  function LookbackWrite(ov: Overrides): Write<int> { IntWrite(ov, "lookback_days") }
  function SkipWrite(ov: Overrides): Write<int> { Then(LookbackWrite(ov), IntWrite(ov, "skip_days")) }
  function HoldWrite(ov: Overrides): Write<int> { Then(SkipWrite(ov), IntWrite(ov, "hold_days")) }
  function TopDecileWrite(ov: Overrides): Write<real> { Then(HoldWrite(ov), RealWrite(ov, "top_decile_pct")) }

  predicate Converts(ov: Overrides) {
    TopDecileWrite(ov).Some?
  }

  /** The knobs an override dict asks for. */
  function KnobsOf(ov: Overrides): Knobs
    requires Converts(ov)
  {
    Knobs(
      if "lookback_days" in ov then ov["lookback_days"].asInt.value else DEFAULTS.lookback,
      if "skip_days" in ov then ov["skip_days"].asInt.value else DEFAULTS.skip,
      if "hold_days" in ov then ov["hold_days"].asInt.value else DEFAULTS.hold,
      if "top_decile_pct" in ov then ov["top_decile_pct"].asReal.value else DEFAULTS.topDecile)
  }

  /** What a run returns, said without any global. */
  function MomentumReport<T>(w: Window<T>, ov: Overrides): Report<T> {
    if !Converts(ov) then Raised
    else
      var knobs := KnobsOf(ov);
      if "vol_managed_mode" in ov && ov["vol_managed_mode"].text == "vol_managed" then
        if w.empty then EmptyVolManaged(knobs)
        else
          var r := w.volManaged(knobs, w.costs);
          if r.None? then Raised else Ran(r.value, knobs, "vol_managed")
      else if w.empty then EmptyLegacy(ov)
      else
        var r := w.legacy(knobs, w.costs);
        if r.None? then Raised else Ran(r.value, knobs, "legacy")
  }

  function After(g: Globals, costs: Costs, ov: Overrides): Globals {
    Globals(
      Written(LookbackWrite(ov), g.lookback), Written(SkipWrite(ov), g.skip), Written(HoldWrite(ov), g.hold),
      Written(TopDecileWrite(ov), g.topDecile),
      Written(Then(TopDecileWrite(ov), TextWrite(ov, "vol_managed_mode")), g.mode),
      if Converts(ov) then costs else g.costs)
  }

  /** An integer setting is what its override converts to, or the default when it is not named. */
  predicate AsksInt(ov: Overrides, key: string, otherwise: int, v: int) {
    if key in ov then ov[key].asInt == Some(v) else v == otherwise
  }

  predicate AsksReal(ov: Overrides, key: string, otherwise: real, v: real) {
    if key in ov then ov[key].asReal == Some(v) else v == otherwise
  }

  /** The knobs that a dict of overrides asks for; none when one of those it names does not convert. */
  predicate AsksFor(ov: Overrides, knobs: Knobs) {
    && AsksInt(ov, "lookback_days", 231, knobs.lookback) && AsksInt(ov, "skip_days", 21, knobs.skip)
    && AsksInt(ov, "hold_days", 21, knobs.hold) && AsksReal(ov, "top_decile_pct", 0.10, knobs.topDecile)
  }

  lemma AsksForIff(ov: Overrides, knobs: Knobs)
    ensures AsksFor(ov, knobs) <==> Converts(ov) && knobs == KnobsOf(ov)
  {
  }

  predicate AsksVolManaged(ov: Overrides) {
    "vol_managed_mode" in ov && ov["vol_managed_mode"].text == "vol_managed"
  }

  /** What a run with these knobs reports: the volatility-managed arm runs exactly when the mode's text asks
      for it, with the window's own costs, and an empty window runs neither. */
  predicate ReportsWith<T(==)>(w: Window<T>, ov: Overrides, knobs: Knobs, report: Report<T>) {
    if w.empty then report == if AsksVolManaged(ov) then EmptyVolManaged(knobs) else EmptyLegacy(ov)
    else if AsksVolManaged(ov) then
      match w.volManaged(knobs, w.costs)
      case None => report == Raised
      case Some(result) => report == Ran(result, knobs, "vol_managed")
    else
      match w.legacy(knobs, w.costs)
      case None => report == Raised
      case Some(result) => report == Ran(result, knobs, "legacy")
  }

  /** The report of a run, over the overrides it is given: with knobs it can ask for, the arm's; else raised. */
  lemma MomentumReportIs<T>(w: Window<T>, ov: Overrides, knobs: Knobs)
    ensures AsksFor(ov, knobs) ==> ReportsWith(w, ov, knobs, MomentumReport(w, ov))
    ensures (forall k: Knobs :: !AsksFor(ov, k)) ==> MomentumReport(w, ov) == Raised
  {
    AsksForIff(ov, knobs);
    if Converts(ov) {
      AsksForIff(ov, KnobsOf(ov));
    }
  }

  class MomentumBacktest {
    var lookback: Option<int>
    var skip: Option<int>
    var hold: Option<int>
    var topDecile: Option<real>
    var mode: Option<string>
    var tierRoundTripCosts: Costs

    function State(): Globals
      reads this
    {
      Globals(lookback, skip, hold, topDecile, mode, tierRoundTripCosts)
    }

    constructor ()
      ensures State() == CLEAN
    {
      lookback, skip, hold, topDecile, mode, tierRoundTripCosts := None, None, None, None, None, map[];
    }

    /** The assignments that open a run, in source order; the first conversion to raise ends it. */
    method SetOverrides(costs: Costs, ov: Overrides) returns (raised: bool)
      modifies this
      ensures raised <==> !Converts(ov)
      ensures State() == After(old(State()), costs, ov)
    {
      raised := true;
      if LookbackWrite(ov).None? {
        return;
      }
      lookback := LookbackWrite(ov).value;
      if SkipWrite(ov).None? {
        return;
      }
      skip := SkipWrite(ov).value;
      if HoldWrite(ov).None? {
        return;
      }
      hold := HoldWrite(ov).value;
      if TopDecileWrite(ov).None? {
        return;
      }
      topDecile := TopDecileWrite(ov).value;
      mode := TextWrite(ov, "vol_managed_mode").value;
      tierRoundTripCosts := costs;
      raised := false;
    }

    /** The report depends on the window and the overrides alone, whatever the globals were. */
    method RunMomentumWithContext<T>(w: Window<T>, ov: Overrides) returns (report: Report<T>)
      modifies this
      ensures report == MomentumReport(w, ov)
      ensures State() == After(old(State()), w.costs, ov)
    {
      var raised := SetOverrides(w.costs, ov);
      if raised {
        return Raised;
      }
      DefaultsEchoTheLastRun(old(State()), w.costs, ov);
      var knobs := DefaultParams(State());
      if mode == Some("vol_managed") {
        if w.empty {
          return EmptyVolManaged(knobs);
        }
        var r := w.volManaged(knobs, w.costs);
        return if r.None? then Raised else Ran(r.value, knobs, "vol_managed");
      }
      if w.empty {
        return EmptyLegacy(ov);
      }
      var r := w.legacy(knobs, tierRoundTripCosts);
      report := if r.None? then Raised else Ran(r.value, knobs, "legacy");
    }
  }

  datatype Trial = Trial(costs: Costs, overrides: Overrides)

  function AfterAll(history: seq<Trial>): Globals {
    if history == [] then CLEAN
    else After(AfterAll(history[..|history| - 1]), history[|history| - 1].costs, history[|history| - 1].overrides)
  }

  function Writes<V>(history: seq<Trial>, write: Overrides -> Write<V>): seq<Write<V>> {
    seq(|history|, i requires 0 <= i < |history| => write(history[i].overrides))
  }

  lemma WritesSnoc<V>(history: seq<Trial>, write: Overrides -> Write<V>)
    requires history != []
    ensures LastSet(Writes(history, write)) ==
      Written(write(history[|history| - 1].overrides), LastSet(Writes(history[..|history| - 1], write)))
  {
    assert Writes(history, write)[..|history| - 1] == Writes(history[..|history| - 1], write);
  }

  lemma {:induction false} GlobalsAreLastSet(history: seq<Trial>)
    ensures var g := AfterAll(history);
      && g.lookback == LastSet(Writes(history, LookbackWrite)) && g.skip == LastSet(Writes(history, SkipWrite))
      && g.hold == LastSet(Writes(history, HoldWrite)) && g.topDecile == LastSet(Writes(history, TopDecileWrite))
  {
    if history != [] {
      GlobalsAreLastSet(history[..|history| - 1]);
      WritesSnoc(history, LookbackWrite);
      WritesSnoc(history, SkipWrite);
      WritesSnoc(history, HoldWrite);
      WritesSnoc(history, TopDecileWrite);
    }
  }

  /** Some run set a global to other than its default, and no later run got as far as that global. */
  ghost predicate Leaks<V(!new)>(writes: seq<Write<V>>, default_: V) {
    exists i: nat, v: V | 0 <= i < |writes| && writes[i] == Some(Some(v)) :: v != default_ && SetsLast(writes, i, v)
  }

  lemma LeaksIff<V(!new)>(writes: seq<Write<V>>, default_: V)
    ensures LastSet(writes).UnwrapOr(default_) != default_ <==> Leaks(writes, default_)
  {
    if LastSet(writes).Some? {
      LastSetIff(writes, LastSet(writes).value);
    }
    forall v: V ensures LastSet(writes) == Some(v) <==> exists i: nat :: SetsLast(writes, i, v) {
      LastSetIff(writes, v);
    }
  }

  /** After any history of runs, `default_params()` reports the live defaults exactly when no global
      was left at another value by the last run to reach it. */
  lemma DefaultsAreTrueIff(history: seq<Trial>)
    ensures DefaultParams(AfterAll(history)) == DEFAULTS <==>
      && !Leaks(Writes(history, LookbackWrite), DEFAULTS.lookback) && !Leaks(Writes(history, SkipWrite), DEFAULTS.skip)
      && !Leaks(Writes(history, HoldWrite), DEFAULTS.hold)
      && !Leaks(Writes(history, TopDecileWrite), DEFAULTS.topDecile)
  {
    GlobalsAreLastSet(history);
    LeaksIff(Writes(history, LookbackWrite), DEFAULTS.lookback);
    LeaksIff(Writes(history, SkipWrite), DEFAULTS.skip);
    LeaksIff(Writes(history, HoldWrite), DEFAULTS.hold);
    LeaksIff(Writes(history, TopDecileWrite), DEFAULTS.topDecile);
  }

  /** In particular, right after a run whose overrides convert, "the defaults" are that run's own
      knobs: they are true exactly when the run overrode nothing away from them. */
  lemma DefaultsEchoTheLastRun(g: Globals, costs: Costs, ov: Overrides)
    requires Converts(ov)
    ensures DefaultParams(After(g, costs, ov)) == KnobsOf(ov)
  {
  }

  // ── Catalyst: reset in a finally that conversions come before ────────────

  datatype CatalystGlobals = CatalystGlobals(cluster: Option<int>, mode: Option<string>, hold: Option<int>)

  const CATALYST_CLEAN := CatalystGlobals(None, None, None)
  const CLUSTER_WINDOW_DAYS := 30
  const HOLDING_PERIOD_DAYS := 30

  function ModeOf(text: Option<string>): Mode {
    if text == Some("positive_beat_30d") then PositiveBeat30d
    else if text == Some("beat_30d_only") then Beat30dOnly
    else if text == Some("beat_30d_only_macro_expansion") then Beat30dOnlyMacroExpansion
    else Off
  }

  datatype CatalystReport<T> = CatalystRaised | CatalystRan(trades: T, window: int, mode: Mode, holdDays: int)

  predicate ClusterRaises(ov: Overrides) {
    "cluster_window_days" in ov && ov["cluster_window_days"].asInt.None?
  }

  predicate HoldRaises(ov: Overrides) {
    !ClusterRaises(ov) && "hold_days" in ov && ov["hold_days"].asInt.None?
  }

  /** What a run returns, said without any global; `build` is None when it raises. */
  function CatalystReportOf<T>(build: (int, Mode, int) -> Option<T>, ov: Overrides): CatalystReport<T> {
    if ClusterRaises(ov) || HoldRaises(ov) then CatalystRaised
    else
      var window := if "cluster_window_days" in ov then ov["cluster_window_days"].asInt.value else CLUSTER_WINDOW_DAYS;
      var mode := ModeOf(if "event_confirmation_mode" in ov then Some(ov["event_confirmation_mode"].text) else None);
      var days := if "hold_days" in ov then ov["hold_days"].asInt.value else HOLDING_PERIOD_DAYS;
      var trades := build(window, mode, days);
      if trades.None? then CatalystRaised else CatalystRan(trades.value, window, mode, days)
  }

  function CatalystAfter(g: CatalystGlobals, ov: Overrides): CatalystGlobals {
    if ClusterRaises(ov) then g
    else if HoldRaises(ov) then
      CatalystGlobals(IntWrite(ov, "cluster_window_days").value, TextWrite(ov, "event_confirmation_mode").value, g.hold)
    else CATALYST_CLEAN
  }

  /** Which mode a text names; every other text, and none, is the default. */
  predicate NamesMode(text: Option<string>, mode: Mode) {
    && (mode == PositiveBeat30d <==> text == Some("positive_beat_30d"))
    && (mode == Beat30dOnly <==> text == Some("beat_30d_only"))
    && (mode == Beat30dOnlyMacroExpansion <==> text == Some("beat_30d_only_macro_expansion"))
  }

  /** The window, mode and holding period that a dict of overrides asks for. */
  predicate AsksForRun(ov: Overrides, window: int, mode: Mode, days: int) {
    && AsksInt(ov, "cluster_window_days", 30, window) && AsksInt(ov, "hold_days", 30, days)
    && NamesMode(if "event_confirmation_mode" in ov then Some(ov["event_confirmation_mode"].text) else None, mode)
  }

  /** The report of a catalyst run, over the overrides it is given. */
  lemma CatalystReportIs<T>(build: (int, Mode, int) -> Option<T>, ov: Overrides, window: int, mode: Mode, days: int)
    ensures AsksForRun(ov, window, mode, days) ==>
      CatalystReportOf(build, ov) ==
        match build(window, mode, days)
        case None => CatalystRaised
        case Some(trades) => CatalystRan(trades, window, mode, days)
    ensures (forall w: int, m: Mode, d: int :: !AsksForRun(ov, w, m, d)) ==>
      CatalystReportOf(build, ov) == CatalystRaised
  {
    if !ClusterRaises(ov) && !HoldRaises(ov) {
      var w := if "cluster_window_days" in ov then ov["cluster_window_days"].asInt.value else CLUSTER_WINDOW_DAYS;
      var d := if "hold_days" in ov then ov["hold_days"].asInt.value else HOLDING_PERIOD_DAYS;
      var text := if "event_confirmation_mode" in ov then Some(ov["event_confirmation_mode"].text) else None;
      assert NamesMode(text, ModeOf(text));
      assert AsksForRun(ov, w, ModeOf(text), d);
    }
  }

  class CatalystBacktest {
    var cluster: Option<int>
    var eventMode: Option<string>
    var hold: Option<int>

    function State(): CatalystGlobals
      reads this
    {
      CatalystGlobals(cluster, eventMode, hold)
    }

    constructor ()
      ensures State() == CATALYST_CLEAN
    {
      cluster, eventMode, hold := None, None, None;
    }

    /** The report depends on the window's data and the overrides alone, whatever the globals were. */
    method RunCatalystWithContext<T>(build: (int, Mode, int) -> Option<T>, ov: Overrides)
      returns (report: CatalystReport<T>)
      modifies this
      ensures report == CatalystReportOf(build, ov)
      ensures State() == CatalystAfter(old(State()), ov)
    {
      if "cluster_window_days" in ov && ov["cluster_window_days"].asInt.None? {
        return CatalystRaised;
      }
      cluster := if "cluster_window_days" in ov then ov["cluster_window_days"].asInt else None;
      eventMode := if "event_confirmation_mode" in ov then Some(ov["event_confirmation_mode"].text) else None;
      if "hold_days" in ov && ov["hold_days"].asInt.None? {
        return CatalystRaised;
      }
      hold := if "hold_days" in ov then ov["hold_days"].asInt else None;
      var window, mode := cluster.UnwrapOr(CLUSTER_WINDOW_DAYS), ModeOf(eventMode);
      var days := hold.UnwrapOr(HOLDING_PERIOD_DAYS);
      var trades := build(window, mode, days);
      cluster, eventMode, hold := None, None, None;
      report := if trades.None? then CatalystRaised else CatalystRan(trades.value, window, mode, days);
    }
  }

  function CatalystAfterAll(history: seq<Overrides>): CatalystGlobals {
    if history == [] then CATALYST_CLEAN
    else CatalystAfter(CatalystAfterAll(history[..|history| - 1]), history[|history| - 1])
  }

  predicate LeavesOverrides(ov: Overrides) {
    HoldRaises(ov) && ("cluster_window_days" in ov || "event_confirmation_mode" in ov)
  }

  predicate LastLeak(history: seq<Overrides>, i: nat) {
    i < |history| && LeavesOverrides(history[i]) && forall j :: i < j < |history| ==> ClusterRaises(history[j])
  }

  /** The reset per run fails exactly when a run names the window or the mode, its hold_days does not
      convert, and every run since has raised on its very first conversion. */
  lemma {:induction false} CatalystLeaksIff(history: seq<Overrides>)
    ensures CatalystAfterAll(history) != CATALYST_CLEAN <==> exists i: nat :: LastLeak(history, i)
    ensures CatalystAfterAll(history).hold.None?
  {
    if history != [] {
      var init, last := history[..|history| - 1], history[|history| - 1];
      CatalystLeaksIff(init);
      if ClusterRaises(last) {
        forall i: nat ensures LastLeak(history, i) <==> LastLeak(init, i) {
        }
      } else if LeavesOverrides(last) {
        assert LastLeak(history, |init|);
      }
    }
  }
}
