/** Maximum drawdown: the one-pass running-peak computations of the three backtests, against the
    largest relative fall between any two points of the equity curve. */
module Drawdown {

  function MaxReal(a: real, b: real): real {
    if a > b then a else b
  }

  /** How far `x` lies below a peak, relative to the peak. */
  function Below(peak: real, x: real): real
    requires peak > 0.0
  {
    (peak - x) / peak
  }

  /** The running peak at the end of a curve. */
  function Peak(equity: seq<real>): (p: real)
    requires equity != []
    ensures forall i :: 0 <= i < |equity| ==> equity[i] <= p
    ensures exists i :: 0 <= i < |equity| && equity[i] == p
  {
    if |equity| == 1 then equity[0]
    else MaxReal(Peak(equity[..|equity| - 1]), equity[|equity| - 1])
  }

  /** The largest fall below the running peak, relative to the peak. */
  function RunningDrawdown(equity: seq<real>): real
    requires equity != [] && equity[0] > 0.0
  {
    var k := |equity| - 1;
    if k == 0 then 0.0
    else
      var p := Peak(equity);
      assert equity[0] <= p;
      MaxReal(RunningDrawdown(equity[..k]), Below(p, equity[k]))
  }

  /** One trade's effect on equity. */
  function Grown(equity: real, ret: real): real {
    equity * (1.0 + ret)
  }

  /** Equity compounded from per-trade returns, starting at 1. */
  function Compounded(rets: seq<real>): (equity: seq<real>)
    ensures |equity| == |rets| + 1 && equity[0] == 1.0
  {
    if rets == [] then [1.0]
    else
      var k := |rets| - 1;
      var front := Compounded(rets[..k]);
      front + [Grown(front[k], rets[k])]
  }

  /** Equity as 1 plus the running sum of returns, starting at 1. */
  function Summed(rets: seq<real>): (equity: seq<real>)
    ensures |equity| == |rets| + 1 && equity[0] == 1.0
  {
    if rets == [] then [1.0]
    else
      var k := |rets| - 1;
      var front := Summed(rets[..k]);
      front + [front[k] + rets[k]]
  }

  lemma CompoundedSnoc(rets: seq<real>, i: nat)
    requires i < |rets|
    ensures Compounded(rets[..i + 1]) == Compounded(rets[..i]) + [Grown(Compounded(rets[..i])[i], rets[i])]
  {
    assert rets[..i + 1][..i] == rets[..i] && rets[..i + 1][i] == rets[i] && |rets[..i + 1]| == i + 1;
  }

  /** The curves, step by step: a return multiplies compounded equity by one plus itself, and is added to
      summed equity. */
  lemma {:induction false} CurveSteps(rets: seq<real>, i: nat)
    requires i < |rets|
    ensures Compounded(rets)[i + 1] - Compounded(rets)[i] == rets[i] * Compounded(rets)[i]
    ensures Summed(rets)[i + 1] - Summed(rets)[i] == rets[i]
  {
    var k := |rets| - 1;
    if i < k {
      CurveSteps(rets[..k], i);
    }
  }

  /** One more point extends the peak and the drawdown as the loop does. */
  lemma ExtendCurve(e: seq<real>, x: real)
    requires e != [] && e[0] > 0.0
    ensures Peak(e + [x]) == MaxReal(Peak(e), x) > 0.0
    ensures RunningDrawdown(e + [x]) == MaxReal(RunningDrawdown(e), Below(Peak(e + [x]), x))
  {
    assert (e + [x])[..|e|] == e;
  }

  /** The catalyst summary's single pass. */
  method CatalystMaxDrawdown(rets: seq<real>) returns (maxDrawdown: real)
    ensures maxDrawdown == -RunningDrawdown(Compounded(rets))
  {
    var cumulative, peak, maxDd := 1.0, 1.0, 0.0;
    for i := 0 to |rets|
      invariant cumulative == Compounded(rets[..i])[i]
      invariant peak == Peak(Compounded(rets[..i])) > 0.0
      invariant maxDd == RunningDrawdown(Compounded(rets[..i]))
    {
      CompoundedSnoc(rets, i);
      cumulative := Grown(cumulative, rets[i]);
      ExtendCurve(Compounded(rets[..i]), cumulative);
      peak := MaxReal(peak, cumulative);
      maxDd := MaxReal(maxDd, Below(peak, cumulative));
    }
    assert rets[..|rets|] == rets;
    maxDrawdown := -maxDd;
  }

  /** `((equity - peak) / peak).min()` of the momentum and carver summaries. */
  function TroughMin(equity: seq<real>): real
    requires equity != [] && equity[0] > 0.0
  {
    var k := |equity| - 1;
    var p := Peak(equity);
    assert equity[0] <= p;
    var trough := (equity[k] - p) / p;
    if k == 0 then trough
    else if TroughMin(equity[..k]) < trough then TroughMin(equity[..k]) else trough
  }

  lemma {:induction false} TroughIsRunning(equity: seq<real>)
    requires equity != [] && equity[0] > 0.0
    ensures TroughMin(equity) == -RunningDrawdown(equity)
  {
    var k, p := |equity| - 1, Peak(equity);
    assert equity[0] <= p;
    assert (equity[k] - p) / p == -(Below(p, equity[k]));
    if k > 0 {
      TroughIsRunning(equity[..k]);
    }
  }

  // ── Against all pairs of points ──────────────────────────────────────────

  /** The fall from one point of the curve to a later one, relative to the first. */
  function Fall(equity: seq<real>, i: nat, j: nat): real
    requires i <= j < |equity| && equity[i] > 0.0
  {
    Below(equity[i], equity[j])
  }

  ghost predicate Starts(equity: seq<real>) {
    equity != [] && equity[0] > 0.0
  }

  /** No fall between two points, the first of them positive, is larger than the figure. */
  ghost predicate IsLargestFall(equity: seq<real>)
    requires Starts(equity)
  {
    forall i, j :: 0 <= i <= j < |equity| && equity[i] > 0.0 ==> Fall(equity, i, j) <= RunningDrawdown(equity)
  }

  /** By index `j` the curve has shown two different positive values. */
  ghost predicate Mixed(equity: seq<real>, j: nat)
    requires j < |equity|
  {
    exists a, b :: 0 <= a <= j && 0 <= b <= j && 0.0 < equity[a] < equity[b]
  }

  /** A loss below zero made while the starting value was still the only positive one. */
  ghost predicate EarlyLoss(equity: seq<real>, k: nat)
    requires Starts(equity)
  {
    k < |equity| && equity[k] < 0.0 && !Mixed(equity, k)
  }

  /** Some early loss is at least as large a fall as this one. */
  ghost predicate Matched(equity: seq<real>, i: nat, j: nat)
    requires Starts(equity) && i <= j < |equity| && equity[i] > 0.0
  {
    exists k: nat :: EarlyLoss(equity, k) && Fall(equity, i, j) <= Fall(equity, 0, k)
  }

  /** Every loss below zero that comes after two different positive values is matched by an early one. */
  ghost predicate WorstIsEarly(equity: seq<real>)
    requires Starts(equity)
  {
    forall i, j :: 0 <= i <= j < |equity| && equity[i] > 0.0 && equity[j] < 0.0 && Mixed(equity, j) ==>
      Matched(equity, i, j)
  }

  ghost predicate NonNegative(equity: seq<real>) {
    forall i :: 0 <= i < |equity| ==> equity[i] >= 0.0
  }

  ghost predicate AllPositive(equity: seq<real>) {
    forall i :: 0 <= i < |equity| ==> equity[i] > 0.0
  }

  /** A product with a positive factor has the sign of the other. */
  lemma FactorSign(a: real, b: real)
    requires b > 0.0
    ensures a > 0.0 <==> a * b > 0.0
    ensures a < 0.0 <==> a * b < 0.0
  {
    if a > 0.0 {
      assert a * b > 0.0;
    } else if a < 0.0 {
      assert a * b < 0.0;
    }
  }

  lemma BelowIs(peak: real, x: real)
    requires peak > 0.0
    ensures (1.0 - Below(peak, x)) * peak == x
  {
  }

  /** A fall is below, at or above 100% as the curve ends above, at or below zero. */
  lemma BelowSign(peak: real, x: real)
    requires peak > 0.0
    ensures x > 0.0 <==> Below(peak, x) < 1.0
    ensures x < 0.0 <==> Below(peak, x) > 1.0
  {
    BelowIs(peak, x);
    FactorSign(1.0 - Below(peak, x), peak);
  }

  /** A higher starting point makes a fall to a non-negative value larger, to a negative one smaller. */
  lemma BelowMonotone(low: real, high: real, x: real)
    requires 0.0 < low < high
    ensures x >= 0.0 ==> Below(low, x) <= Below(high, x)
    ensures x < 0.0 ==> Below(low, x) > Below(high, x)
  {
    var u, v := 1.0 - Below(low, x), 1.0 - Below(high, x);
    BelowIs(low, x);
    BelowIs(high, x);
    BelowSign(high, x);
    var gap, rise := high - low, u - v;
    assert rise * low == u * low - v * low && v * gap == v * high - v * low;
    assert rise * low == v * gap;
    FactorSign(v, gap);
    FactorSign(rise, low);
    assert x >= 0.0 ==> rise >= 0.0;
  }

  /** The running peak at one index. */
  function PeakAt(equity: seq<real>, j: nat): (p: real)
    requires Starts(equity) && j < |equity|
    ensures p > 0.0
  {
    var p := Peak(equity[..j + 1]);
    assert equity[..j + 1][0] <= p;
    p
  }

  /** The fall from the running peak at one index. */
  function PeakFall(equity: seq<real>, j: nat): real
    requires Starts(equity) && j < |equity|
  {
    Below(PeakAt(equity, j), equity[j])
  }

  lemma PeakIsReached(equity: seq<real>, j: nat) returns (top: nat)
    requires Starts(equity) && j < |equity|
    ensures top <= j && equity[top] == PeakAt(equity, j)
    ensures forall i :: 0 <= i <= j ==> equity[i] <= equity[top]
  {
    var front := equity[..j + 1];
    var i :| 0 <= i < |front| && front[i] == Peak(front);
    top := i;
    assert forall i :: 0 <= i <= j ==> equity[i] == front[i];
  }

  lemma FrontPeakFall(equity: seq<real>, j: nat)
    requires Starts(equity) && j < |equity| - 1
    ensures PeakFall(equity[..|equity| - 1], j) == PeakFall(equity, j)
  {
    assert equity[..|equity| - 1][..j + 1] == equity[..j + 1];
  }

  lemma LastPeakFall(equity: seq<real>)
    requires Starts(equity) && |equity| > 1
    ensures RunningDrawdown(equity) ==
      MaxReal(RunningDrawdown(equity[..|equity| - 1]), PeakFall(equity, |equity| - 1))
  {
    assert equity[..|equity|] == equity;
  }

  /** For every curve, the figure is the largest fall from the running peak: no such fall exceeds it. */
  lemma {:induction false} PeakFallBounded(equity: seq<real>, j: nat)
    requires Starts(equity) && j < |equity|
    ensures PeakFall(equity, j) <= RunningDrawdown(equity)
  {
    var k := |equity| - 1;
    if k == 0 {
      assert equity[..1] == equity;
    } else {
      LastPeakFall(equity);
      if j < k {
        PeakFallBounded(equity[..k], j);
        FrontPeakFall(equity, j);
      }
    }
  }

  /** And some such fall reaches it. */
  lemma {:induction false} WorstPeakFall(equity: seq<real>) returns (worst: nat)
    requires Starts(equity)
    ensures worst < |equity| && PeakFall(equity, worst) == RunningDrawdown(equity) >= 0.0
  {
    var k := |equity| - 1;
    if k == 0 {
      assert equity[..1] == equity;
      worst := 0;
    } else {
      LastPeakFall(equity);
      worst := WorstPeakFall(equity[..k]);
      FrontPeakFall(equity, worst);
      if PeakFall(equity, k) > RunningDrawdown(equity[..k]) {
        worst := k;
      }
    }
  }

  /** A fall at a point with one positive value so far, or not below zero, is at most the peak's. */
  lemma PeakIsWorst(equity: seq<real>, i: nat, j: nat)
    requires Starts(equity) && i <= j < |equity| && equity[i] > 0.0
    requires equity[j] >= 0.0 || !Mixed(equity, j)
    ensures Fall(equity, i, j) <= PeakFall(equity, j)
  {
    var top := PeakIsReached(equity, j);
    if equity[i] < equity[top] {
      BelowMonotone(equity[i], equity[top], equity[j]);
    }
  }

  /** Below zero after two different positive values, some fall is larger than the peak's. */
  lemma MixedIsWorse(equity: seq<real>, j: nat) returns (i: nat)
    requires Starts(equity) && j < |equity| && equity[j] < 0.0 && Mixed(equity, j)
    ensures i <= j && equity[i] > 0.0 && Fall(equity, i, j) > PeakFall(equity, j)
  {
    var top := PeakIsReached(equity, j);
    var a, b :| 0 <= a <= j && 0 <= b <= j && 0.0 < equity[a] < equity[b];
    i := a;
    BelowMonotone(equity[a], PeakAt(equity, j), equity[j]);
  }

  /** While only one positive value has been shown, the starting value is the peak. */
  lemma UnmixedPeak(equity: seq<real>, k: nat)
    requires Starts(equity) && k < |equity| && !Mixed(equity, k)
    ensures PeakAt(equity, k) == equity[0]
  {
    var top := PeakIsReached(equity, k);
  }

  lemma EarlyWorstBounds(equity: seq<real>, i: nat, j: nat)
    requires Starts(equity) && WorstIsEarly(equity) && i <= j < |equity| && equity[i] > 0.0
    ensures Fall(equity, i, j) <= RunningDrawdown(equity)
  {
    if equity[j] >= 0.0 || !Mixed(equity, j) {
      PeakIsWorst(equity, i, j);
      PeakFallBounded(equity, j);
    } else {
      var k: nat :| EarlyLoss(equity, k) && Fall(equity, i, j) <= Fall(equity, 0, k);
      UnmixedPeak(equity, k);
      PeakFallBounded(equity, k);
    }
  }

  lemma BoundIsEarly(equity: seq<real>, k: nat, i: nat, j: nat)
    requires Starts(equity) && IsLargestFall(equity) && k < |equity| && i <= j < |equity|
    requires PeakFall(equity, k) == RunningDrawdown(equity)
    requires equity[i] > 0.0 && equity[j] < 0.0
    ensures Matched(equity, i, j)
  {
    assert IsLargestFall(equity) && Fall(equity, i, j) <= RunningDrawdown(equity);
    BelowSign(equity[i], equity[j]);
    BelowSign(PeakAt(equity, k), equity[k]);
    if Mixed(equity, k) {
      var m := MixedIsWorse(equity, k);
    }
    UnmixedPeak(equity, k);
    assert EarlyLoss(equity, k);
  }

  /** For every curve: the one-pass figure is always attained by some pair of points, and it is the
      largest fall over all pairs exactly when the worst loss below zero is an early one. */
  lemma LargestFallIff(equity: seq<real>)
    requires Starts(equity)
    ensures IsLargestFall(equity) <==> WorstIsEarly(equity)
    ensures exists i, j :: 0 <= i <= j < |equity| && equity[i] > 0.0 && Fall(equity, i, j) == RunningDrawdown(equity)
  {
    var k := WorstPeakFall(equity);
    var top := PeakIsReached(equity, k);
    assert Fall(equity, top, k) == RunningDrawdown(equity);
    if WorstIsEarly(equity) {
      EarlyIsLargest(equity);
    }
    if IsLargestFall(equity) {
      LargestIsEarly(equity, k);
    }
  }

  lemma EarlyIsLargest(equity: seq<real>)
    requires Starts(equity) && WorstIsEarly(equity)
    ensures IsLargestFall(equity)
  {
    forall i, j | 0 <= i <= j < |equity| && equity[i] > 0.0 ensures Fall(equity, i, j) <= RunningDrawdown(equity) {
      EarlyWorstBounds(equity, i, j);
    }
  }

  lemma LargestIsEarly(equity: seq<real>, k: nat)
    requires Starts(equity) && IsLargestFall(equity)
    requires k < |equity| && PeakFall(equity, k) == RunningDrawdown(equity)
    ensures WorstIsEarly(equity)
  {
    forall i, j | 0 <= i <= j < |equity| && equity[i] > 0.0 && equity[j] < 0.0
      ensures Matched(equity, i, j)
    {
      BoundIsEarly(equity, k, i, j);
    }
  }

  /** The condition holds on every curve that stays at or above zero, where the figure lies in [0, 1],
      and on every curve that shows a single positive value. */
  lemma EarlyCases(equity: seq<real>)
    requires Starts(equity)
    ensures NonNegative(equity) ==> WorstIsEarly(equity) && 0.0 <= RunningDrawdown(equity) <= 1.0
    ensures AllPositive(equity) ==> RunningDrawdown(equity) < 1.0
    ensures !Mixed(equity, |equity| - 1) ==> WorstIsEarly(equity)
  {
    var k := WorstPeakFall(equity);
    BelowSign(PeakAt(equity, k), equity[k]);
    forall j | 0 <= j < |equity| && Mixed(equity, j) ensures Mixed(equity, |equity| - 1) {
      MixedStays(equity, j, |equity| - 1);
    }
  }

  lemma MixedStays(equity: seq<real>, j: nat, k: nat)
    requires j <= k < |equity| && Mixed(equity, j)
    ensures Mixed(equity, k)
  {
    var a, b :| 0 <= a <= j && 0 <= b <= j && 0.0 < equity[a] < equity[b];
    assert 0 <= a <= k && 0 <= b <= k;
  }

  /** It fails on every curve whose first loss below zero comes after two different positive values. */
  lemma LateFirstLossUnderstates(equity: seq<real>, n: nat)
    requires Starts(equity) && n < |equity| && equity[n] < 0.0 && Mixed(equity, n)
    requires forall m :: 0 <= m < n ==> equity[m] >= 0.0
    ensures !IsLargestFall(equity)
  {
    forall k: nat ensures !EarlyLoss(equity, k) {
      if n <= k < |equity| {
        MixedStays(equity, n, k);
      }
    }
    assert 0 <= 0 <= n && equity[0] > 0.0;
    LargestFallIff(equity);
  }

  /** On a positive curve the one-pass drawdown is the maximum of the falls over all pairs of
      points, and it lies in [0, 1). */
  lemma RunningIsPairMaximum(equity: seq<real>)
    requires equity != [] && AllPositive(equity)
    ensures forall i, j :: 0 <= i <= j < |equity| ==> Fall(equity, i, j) <= RunningDrawdown(equity)
    ensures exists i, j :: 0 <= i <= j < |equity| && Fall(equity, i, j) == RunningDrawdown(equity)
    ensures 0.0 <= RunningDrawdown(equity) < 1.0
  {
    LargestFallIff(equity);
    EarlyCases(equity);
  }

  lemma GrownPositive(equity: real, ret: real)
    requires equity > 0.0 && ret > -1.0
    ensures Grown(equity, ret) > 0.0
  {
  }

  lemma {:induction false} CompoundedPositive(rets: seq<real>)
    requires forall i :: 0 <= i < |rets| ==> rets[i] > -1.0
    ensures AllPositive(Compounded(rets))
  {
    if rets != [] {
      var k := |rets| - 1;
      var front := Compounded(rets[..k]);
      CompoundedPositive(rets[..k]);
      GrownPositive(front[k], rets[k]);
      assert Compounded(rets) == front + [Grown(front[k], rets[k])];
    }
  }

  /** The catalyst figure, for every list of returns: always some pair's fall, and the largest over all
      pairs exactly under the condition above; with no return of -100% or worse it is, and below 1. */
  lemma CatalystDrawdown(rets: seq<real>)
    ensures IsLargestFall(Compounded(rets)) <==> WorstIsEarly(Compounded(rets))
    ensures var e := Compounded(rets);
      exists i, j :: 0 <= i <= j < |e| && e[i] > 0.0 && Fall(e, i, j) == RunningDrawdown(e)
    ensures (forall i :: 0 <= i < |rets| ==> rets[i] > -1.0) ==>
      IsLargestFall(Compounded(rets)) && 0.0 <= RunningDrawdown(Compounded(rets)) < 1.0
  {
    LargestFallIff(Compounded(rets));
    EarlyCases(Compounded(rets));
    if forall i :: 0 <= i < |rets| ==> rets[i] > -1.0 {
      CompoundedPositive(rets);
    }
  }

  /** The additive figure of momentum, its overlay and carver, for every list of returns. */
  lemma AdditiveDrawdown(rets: seq<real>)
    ensures var e := Summed(rets);
      (forall i, j :: 0 <= i <= j < |e| && e[i] > 0.0 ==> TroughMin(e) <= -Fall(e, i, j)) <==> WorstIsEarly(e)
    ensures var e := Summed(rets);
      exists i, j :: 0 <= i <= j < |e| && e[i] > 0.0 && TroughMin(e) == -Fall(e, i, j)
    ensures NonNegative(Summed(rets)) ==> WorstIsEarly(Summed(rets)) && -1.0 <= TroughMin(Summed(rets)) <= 0.0
  {
    LargestFallIff(Summed(rets));
    EarlyCases(Summed(rets));
    TroughIsRunning(Summed(rets));
  }

  /** Once summed equity turns negative the figure is no longer the worst fall between two points:
      from 1 to 2 to -1 it reports 150%, while the fall from 1 to -1 is 200%. */
  lemma NegativeEquityUnderstates() returns (rets: seq<real>)
    ensures var e := Summed(rets);
      |e| == 3 && e[0] > 0.0 && Fall(e, 0, 2) > RunningDrawdown(e)
  {
    rets := [1.0, -3.0];
    assert rets[..1] == [1.0] && rets[..1][..0] == [];
    var e := Summed(rets);
    assert Summed(rets[..1]) == [1.0, 2.0];
    assert e == [1.0, 2.0, -1.0];
    assert e[..2] == [1.0, 2.0] && e[..2][..1] == [1.0];
    assert Peak(e[..2]) == 2.0 && Peak(e) == 2.0;
    assert RunningDrawdown(e[..2]) == 0.0;
    assert RunningDrawdown(e) == 1.5;
  }
}
