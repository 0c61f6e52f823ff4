/** The maximum drawdown of rolling_window_ic_experiment.py, over exact reals. */
module Drawdown {

  // ----- the array expressions of the source

  /** cumprod(1 + daily). */
  function Equity(daily: seq<real>): (r: seq<real>)
    ensures |r| == |daily|
  {
    if |daily| == 0 then []
    else
      var init := Equity(daily[..|daily| - 1]);
      init + [(if |init| == 0 then 1.0 else init[|init| - 1]) * (1.0 + daily[|daily| - 1])]
  }

  function MaxReal(a: real, b: real): real { if a < b then b else a }

  function MinReal(a: real, b: real): real { if a < b then a else b }

  /** maximum.accumulate. */
  function RunningMax(xs: seq<real>): (r: seq<real>)
    ensures |r| == |xs|
  {
    if |xs| == 0 then []
    else
      var init, last := RunningMax(xs[..|xs| - 1]), xs[|xs| - 1];
      init + [if |init| == 0 then last else MaxReal(init[|init| - 1], last)]
  }

  function Minimum(xs: seq<real>): real
    requires |xs| > 0
  {
    if |xs| == 1 then xs[0] else MinReal(Minimum(xs[..|xs| - 1]), xs[|xs| - 1])
  }

  /** equity / where(peak == 0, 1, peak) - 1. */
  function DrawdownFrom(equity: real, peak: real): real {
    equity / (if peak == 0.0 then 1.0 else peak) - 1.0
  }

  function Drawdowns(equity: seq<real>): seq<real> {
    var peak := RunningMax(equity);
    seq(|equity|, j requires 0 <= j < |equity| => DrawdownFrom(equity[j], peak[j]))
  }

  function MaxDrawdown(daily: seq<real>): real {
    if |daily| == 0 then 0.0 else Minimum(Drawdowns(Equity(daily)))
  }

  // ----- the simple form: every pair of days

  /** What holding from day i to day j earns. */
  function Change(curve: seq<real>, i: nat, j: nat): real
    requires i <= j < |curve| && curve[i] != 0.0
  {
    curve[j] / curve[i] - 1.0
  }

  ghost predicate NonNegative(curve: seq<real>) {
    forall i :: 0 <= i < |curve| ==> curve[i] >= 0.0
  }

  /** A curve that starts with some capital and never owes any. */
  ghost predicate Solvent(curve: seq<real>) {
    |curve| > 0 && curve[0] > 0.0 && NonNegative(curve)
  }

  /** m is the smallest change over all pairs of days, counted from days with capital left. */
  ghost predicate IsWorstChange(curve: seq<real>, m: real) {
    && (forall i, j :: 0 <= i <= j < |curve| && curve[i] > 0.0 ==> m <= Change(curve, i, j))
    && (exists i, j :: 0 <= i <= j < |curve| && curve[i] > 0.0 && m == Change(curve, i, j))
  }

  // ----- the one-pass form computes the simple one

  lemma {:induction false} EquityNonNegative(daily: seq<real>)
    requires forall k :: 0 <= k < |daily| ==> daily[k] >= -1.0
    ensures NonNegative(Equity(daily))
    ensures |daily| > 0 ==> Equity(daily)[0] == 1.0 + daily[0]
  {
    if |daily| > 0 {
      var init := Equity(daily[..|daily| - 1]);
      EquityNonNegative(daily[..|daily| - 1]);
      EquityStep(daily);
      hide Equity;
      ProductSign(if |init| == 0 then 1.0 else init[|init| - 1], 1.0 + daily[|daily| - 1]);
    }
  }

  /** A return of -1 is a total loss: the curve reaches zero, and only so. */
  lemma {:induction false} ZeroIffTotalLoss(daily: seq<real>)
    requires forall k :: 0 <= k < |daily| ==> daily[k] >= -1.0
    ensures ReachesZero(Equity(daily)) <==> exists k :: 0 <= k < |daily| && daily[k] == -1.0
  {
    if |daily| > 0 {
      var init, n := Equity(daily[..|daily| - 1]), |daily| - 1;
      EquityNonNegative(daily[..n]);
      ZeroIffTotalLoss(daily[..n]);
      EquityStep(daily);
      hide Equity;
      ProductSign(if n == 0 then 1.0 else init[n - 1], 1.0 + daily[n]);
      LastZero(init, daily, Equity(daily)[n]);
    }
  }

  ghost predicate ReachesZero(curve: seq<real>) {
    exists i :: 0 <= i < |curve| && curve[i] == 0.0
  }

  /** Capital of one, compounded day by day. */
  lemma {:induction false} EquityCompounds(daily: seq<real>)
    ensures |daily| > 0 ==> Equity(daily)[0] == 1.0 + daily[0]
    ensures forall j :: 0 < j < |daily| ==> Equity(daily)[j] == Equity(daily)[j - 1] * (1.0 + daily[j])
  {
    if |daily| > 1 {
      var n := |daily| - 1;
      EquityCompounds(daily[..n]);
      EquityStep(daily);
      hide Equity;
      forall j | 0 < j < |daily| ensures Equity(daily)[j] == Equity(daily)[j - 1] * (1.0 + daily[j]) {
        if j < n { assert Equity(daily)[j] == Equity(daily[..n])[j] && daily[..n][j] == daily[j]; }
      }
    } else if |daily| == 1 {
      EquityStep(daily);
    }
  }

  lemma EquityStep(daily: seq<real>)
    requires |daily| > 0
    ensures var init := Equity(daily[..|daily| - 1]);
      && Equity(daily) == init + [Equity(daily)[|daily| - 1]]
      && Equity(daily)[|daily| - 1] == (if |init| == 0 then 1.0 else init[|init| - 1]) * (1.0 + daily[|daily| - 1])
  {
  }

  /** Bookkeeping of the last day: the curve has reached zero iff some return so far was -1. */
  lemma LastZero(init: seq<real>, daily: seq<real>, value: real)
    requires |daily| == |init| + 1
    requires ReachesZero(init) <==> exists k :: 0 <= k < |init| && daily[..|init|][k] == -1.0
    requires value == 0.0 <==> (|init| > 0 && init[|init| - 1] == 0.0) || daily[|init|] == -1.0
    ensures ReachesZero(init + [value]) <==> exists k :: 0 <= k < |daily| && daily[k] == -1.0
  {
    var n := |init|;
    if i :| 0 <= i < n && init[i] == 0.0 {
      assert (init + [value])[i] == 0.0;
      var k :| 0 <= k < n && daily[..n][k] == -1.0;
      assert daily[k] == -1.0;
    } else if value == 0.0 {
      assert (init + [value])[n] == 0.0 && daily[n] == -1.0;
    } else {
      forall k | 0 <= k < |daily| ensures daily[k] != -1.0 {
        if k < n { assert daily[..n][k] == daily[k]; }
      }
      forall i | 0 <= i < |daily| ensures (init + [value])[i] != 0.0 {}
    }
  }

  lemma ProductSign(a: real, b: real)
    requires a >= 0.0 && b >= 0.0
    ensures a * b >= 0.0
    ensures a * b == 0.0 <==> a == 0.0 || b == 0.0
  {
    if a > 0.0 && b > 0.0 { ProductPositive(a, b); }
  }

  lemma ProductPositive(a: real, b: real)
    requires a > 0.0 && b > 0.0
    ensures a * b > 0.0
  {
  }

  /** The running maximum is attained at or before each position and bounds everything up to it. */
  lemma {:induction false} RunningMaxIsPeak(xs: seq<real>, j: nat)
    requires j < |xs|
    ensures forall i :: 0 <= i <= j ==> xs[i] <= RunningMax(xs)[j]
    ensures exists i :: 0 <= i <= j && xs[i] == RunningMax(xs)[j]
    decreases |xs|
  {
    var init := xs[..|xs| - 1];
    if j < |init| {
      RunningMaxIsPeak(init, j);
      var i :| 0 <= i <= j && init[i] == RunningMax(init)[j];
      assert xs[i] == RunningMax(xs)[j];
      assert forall i :: 0 <= i <= j ==> xs[i] == init[i];
    } else if |init| > 0 {
      RunningMaxIsPeak(init, j - 1);
      var i :| 0 <= i <= j - 1 && init[i] == RunningMax(init)[j - 1];
      assert xs[i] == init[i];
      assert forall i :: 0 <= i < j ==> xs[i] == init[i];
    }
  }

  lemma {:induction false} MinimumIsLeast(xs: seq<real>)
    requires |xs| > 0
    ensures forall j :: 0 <= j < |xs| ==> Minimum(xs) <= xs[j]
    ensures exists j :: 0 <= j < |xs| && Minimum(xs) == xs[j]
  {
    if |xs| > 1 {
      var init := xs[..|xs| - 1];
      MinimumIsLeast(init);
      var j :| 0 <= j < |init| && Minimum(init) == init[j];
      assert xs[j] == init[j];
      assert forall k :: 0 <= k < |init| ==> xs[k] == init[k];
      assert Minimum(xs) == xs[j] || Minimum(xs) == xs[|xs| - 1];
    } else {
      assert Minimum(xs) == xs[0];
    }
  }

  /** Dividing by the larger denominator gives the smaller ratio. */
  lemma LargerPeakWorse(e: real, a: real, b: real)
    requires e >= 0.0 && 0.0 < a <= b
    ensures e / b <= e / a
  {
    var p, q := e / a, e / b;
    assert p * a == e && q * b == e;
    if p < q {
      Scale(p, q, a);
      RatioSign(e, b);
      ScaleLeft(q, a, b);
    }
  }

  lemma RatioSign(e: real, b: real)
    requires e >= 0.0 && b > 0.0
    ensures e / b >= 0.0
    ensures e / b == 0.0 <==> e == 0.0
  {
    var q := e / b;
    assert q * b == e;
    if q < 0.0 { ProductPositive(-q, b); }
    if q > 0.0 { ProductPositive(q, b); }
  }

  lemma Scale(p: real, q: real, b: real)
    requires p < q && b > 0.0
    ensures p * b < q * b
  {
    ProductPositive(q - p, b);
  }

  lemma ScaleLeft(p: real, a: real, b: real)
    requires p >= 0.0 && a <= b
    ensures p * a <= p * b
  {
    ProductSign(p, b - a);
  }

  /** One day's drawdown from the running peak is the worst change ending on that day. */
  lemma DayDrawdown(curve: seq<real>, j: nat)
    requires Solvent(curve) && j < |curve|
    ensures forall i :: 0 <= i <= j && curve[i] > 0.0 ==> Drawdowns(curve)[j] <= Change(curve, i, j)
    ensures exists i :: 0 <= i <= j && curve[i] > 0.0 && Drawdowns(curve)[j] == Change(curve, i, j)
  {
    RunningMaxIsPeak(curve, j);
    hide RunningMax;
    var peak := RunningMax(curve)[j];
    assert curve[0] <= peak;
    var p :| 0 <= p <= j && curve[p] == peak;
    forall i | 0 <= i <= j && curve[i] > 0.0 ensures Drawdowns(curve)[j] <= Change(curve, i, j) {
      LargerPeakWorse(curve[j], curve[i], peak);
    }
    assert Drawdowns(curve)[j] == Change(curve, p, j);
  }

  /** The one-pass minimum over any solvent curve is its worst change. */
  lemma CurveWorstChange(curve: seq<real>)
    requires Solvent(curve)
    ensures IsWorstChange(curve, Minimum(Drawdowns(curve)))
  {
    var dd := Drawdowns(curve);
    assert |dd| == |curve|;
    MinimumIsLeast(dd);
    hide Drawdowns, Minimum, Change, Solvent;
    forall i, j | 0 <= i <= j < |curve| && curve[i] > 0.0 ensures Minimum(dd) <= Change(curve, i, j) {
      DayDrawdown(curve, j);
      assert Minimum(dd) <= dd[j];
    }
    var j :| 0 <= j < |dd| && Minimum(dd) == dd[j];
    DayDrawdown(curve, j);
    var i :| 0 <= i <= j && curve[i] > 0.0 && dd[j] == Change(curve, i, j);
  }

  /** The result is the worst change between any two days, up to and including total losses. */
  lemma DrawdownIsWorstChange(daily: seq<real>)
    requires |daily| > 0 && daily[0] > -1.0 && forall k :: 0 <= k < |daily| ==> daily[k] >= -1.0
    ensures Solvent(Equity(daily)) && IsWorstChange(Equity(daily), MaxDrawdown(daily))
  {
    EquityNonNegative(daily);
    hide Equity;
    CurveWorstChange(Equity(daily));
  }

  /** It is -1 iff some return is a total loss, and zero iff there is capital and the curve never falls. */
  lemma DrawdownRange(daily: seq<real>)
    requires forall k :: 0 <= k < |daily| ==> daily[k] >= -1.0
    ensures -1.0 <= MaxDrawdown(daily) <= 0.0
    ensures MaxDrawdown(daily) == -1.0 <==> exists k :: 0 <= k < |daily| && daily[k] == -1.0
    ensures MaxDrawdown(daily) == 0.0 <==> |daily| == 0 || (daily[0] > -1.0 && NeverFalls(Equity(daily)))
  {
    if |daily| > 0 {
      EquityNonNegative(daily);
      ZeroIffTotalLoss(daily);
      hide Equity;
      var curve := Equity(daily);
      if daily[0] == -1.0 {
        LostAtOnce(daily);
      } else {
        DrawdownIsWorstChange(daily);
        hide MaxDrawdown;
        WorstChangeRange(curve, MaxDrawdown(daily));
      }
    }
  }

  ghost predicate NeverFalls(curve: seq<real>) {
    forall i, j :: 0 <= i <= j < |curve| ==> curve[i] <= curve[j]
  }

  lemma RatioOrder(a: real, b: real)
    requires a > 0.0
    ensures b / a >= 1.0 <==> a <= b
    ensures a == b ==> b / a == 1.0
  {
    var q := b / a;
    assert q * a == b && 1.0 * a == a;
    if q < 1.0 { Scale(q, 1.0, a); }
    if q > 1.0 { Scale(1.0, q, a); }
  }

  lemma ChangeSign(curve: seq<real>, i: nat, j: nat)
    requires i <= j < |curve| && curve[i] > 0.0 && curve[j] >= 0.0
    ensures Change(curve, i, j) >= -1.0
    ensures Change(curve, i, j) == -1.0 <==> curve[j] == 0.0
    ensures Change(curve, i, j) >= 0.0 <==> curve[i] <= curve[j]
    ensures i == j ==> Change(curve, i, j) == 0.0
  {
    var a, b := curve[i], curve[j];
    var q := b / a;
    RatioSign(b, a);
    assert Change(curve, i, j) == q - 1.0;
    hide Change;
    RatioOrder(a, b);
  }

  lemma WorstChangeRange(curve: seq<real>, m: real)
    requires Solvent(curve) && IsWorstChange(curve, m)
    ensures -1.0 <= m <= 0.0
    ensures m == -1.0 <==> ReachesZero(curve)
    ensures m == 0.0 <==> NeverFalls(curve)
  {
    hide Change;
    var i, j :| 0 <= i <= j < |curve| && curve[i] > 0.0 && m == Change(curve, i, j);
    ChangeSign(curve, i, j);
    ChangeSign(curve, 0, 0);
    assert m <= Change(curve, 0, 0);
    forall z | 0 <= z < |curve| && curve[z] == 0.0 ensures m == -1.0 {
      ChangeSign(curve, 0, z);
      assert m <= Change(curve, 0, z);
    }
    if m == 0.0 {
      forall p, q | 0 <= p <= q < |curve| ensures curve[p] <= curve[q] {
        if curve[p] > 0.0 {
          ChangeSign(curve, p, q);
          assert m <= Change(curve, p, q);
        }
      }
    }
  }

  /** Losing everything on the first day leaves a curve of zeros. */
  lemma LostAtOnce(daily: seq<real>)
    requires |daily| > 0 && daily[0] == -1.0
    ensures forall i :: 0 <= i < |daily| ==> Equity(daily)[i] == 0.0
    ensures MaxDrawdown(daily) == -1.0
  {
    ZeroCurve(daily);
    hide Equity;
    var curve := Equity(daily);
    var dd := Drawdowns(curve);
    forall j | 0 <= j < |dd| ensures dd[j] == -1.0 { RunningMaxIsPeak(curve, j); }
    MinimumIsLeast(dd);
  }

  lemma {:induction false} ZeroCurve(daily: seq<real>)
    requires |daily| > 0 && daily[0] == -1.0
    ensures forall i :: 0 <= i < |daily| ==> Equity(daily)[i] == 0.0
  {
    if |daily| > 1 { ZeroCurve(daily[..|daily| - 1]); }
  }

  // ----- the first day

  /** The curve starts after the first day, so short of a total loss that day's return does not matter. */
  lemma FirstReturnIsIgnored(daily: seq<real>, first: real)
    requires |daily| > 0 && daily[0] > -1.0 && first > -1.0
    ensures MaxDrawdown(daily[0 := first]) == MaxDrawdown(daily)
  {
    hide *;
    var a, b := Equity(daily), Equity(daily[0 := first]);
    var c := (1.0 + first) / (1.0 + daily[0]);
    ScaleFactor(1.0 + first, 1.0 + daily[0]);
    EquityScales(daily, first, c);
    FirstEquity(daily);
    SameDrawdowns(a, b, c);
    Parts(daily);
    Parts(daily[0 := first]);
  }

  lemma ScaleFactor(x: real, y: real)
    requires x > 0.0 && y > 0.0
    ensures x / y > 0.0 && (x / y) * y == x
  {
    RatioSign(x, y);
  }

  /** A curve that is scaled up has the same drawdowns. */
  lemma SameDrawdowns(a: seq<real>, b: seq<real>, c: real)
    requires |a| == |b| > 0 && a[0] > 0.0 && c > 0.0 && forall j :: 0 <= j < |a| ==> b[j] == c * a[j]
    ensures Drawdowns(b) == Drawdowns(a)
  {
    assert |Drawdowns(a)| == |a| && |Drawdowns(b)| == |b|;
    hide Drawdowns, RunningMax;
    RunningMaxScales(a, b, c);
    forall j | 0 <= j < |a| ensures Drawdowns(b)[j] == Drawdowns(a)[j] {
      SameDrawdownAt(a, b, c, j);
    }
  }

  lemma SameDrawdownAt(a: seq<real>, b: seq<real>, c: real, j: nat)
    requires j < |a| == |b| && a[0] > 0.0 && c > 0.0
    requires b[j] == c * a[j] && RunningMax(b)[j] == c * RunningMax(a)[j]
    ensures |Drawdowns(a)| == |Drawdowns(b)| == |a| && Drawdowns(b)[j] == Drawdowns(a)[j]
  {
    hide *;
    PeakPositive(a, j);
    DrawdownsAt(a, j);
    DrawdownsAt(b, j);
    SameFall(a[j], RunningMax(a)[j], c, b[j], RunningMax(b)[j]);
  }

  lemma PeakPositive(curve: seq<real>, j: nat)
    requires j < |curve| && curve[0] > 0.0
    ensures RunningMax(curve)[j] > 0.0
  {
    RunningMaxIsPeak(curve, j);
    hide RunningMax;
    assert curve[0] <= RunningMax(curve)[j];
  }

  lemma DrawdownsAt(curve: seq<real>, j: nat)
    requires j < |curve|
    ensures |Drawdowns(curve)| == |curve| && Drawdowns(curve)[j] == DrawdownFrom(curve[j], RunningMax(curve)[j])
  {
    hide RunningMax, DrawdownFrom;
  }

  lemma {:induction false} FirstEquity(daily: seq<real>)
    requires |daily| > 0
    ensures Equity(daily)[0] == 1.0 + daily[0]
  {
    if |daily| > 1 { FirstEquity(daily[..|daily| - 1]); }
  }

  lemma {:induction false} EquityScales(daily: seq<real>, first: real, c: real)
    requires |daily| > 0 && c * (1.0 + daily[0]) == 1.0 + first
    ensures forall j :: 0 <= j < |daily| ==> Equity(daily[0 := first])[j] == c * Equity(daily)[j]
  {
    if |daily| > 1 {
      var init, n := daily[..|daily| - 1], |daily| - 1;
      EquityScales(init, first, c);
      assert daily[0 := first][..n] == init[0 := first];
      EquityStep(daily);
      EquityStep(daily[0 := first]);
      hide Equity;
      Regroup(c, Equity(init)[n - 1], 1.0 + daily[n]);
    }
  }

  lemma Regroup(a: real, b: real, c: real)
    ensures (a * b) * c == a * (b * c)
  {
  }

  lemma {:induction false} RunningMaxScales(a: seq<real>, b: seq<real>, c: real)
    requires |a| == |b| && c > 0.0 && forall j :: 0 <= j < |a| ==> b[j] == c * a[j]
    ensures forall j :: 0 <= j < |a| ==> RunningMax(b)[j] == c * RunningMax(a)[j]
  {
    if |a| > 1 {
      var n := |a| - 1;
      RunningMaxScales(a[..n], b[..n], c);
      MaxScales(RunningMax(a[..n])[n - 1], a[n], c);
    }
  }

  lemma MaxScales(x: real, y: real, c: real)
    requires c > 0.0
    ensures MaxReal(c * x, c * y) == c * MaxReal(x, y)
  {
    if x < y { Scale(x, y, c); } else { ScaleLeft(c, y, x); }
  }

  lemma SameFall(e: real, p: real, c: real, e': real, p': real)
    requires p > 0.0 && c > 0.0 && e' == c * e && p' == c * p
    ensures DrawdownFrom(e', p') == DrawdownFrom(e, p)
  {
    ProductPositive(c, p);
    SameRatio(e, p, c);
  }

  lemma SameRatio(e: real, p: real, c: real)
    requires p > 0.0 && c > 0.0 && c * p > 0.0
    ensures (c * e) / (c * p) == e / p
  {
    var q, r := e / p, (c * e) / (c * p);
    assert q * p == e && r * (c * p) == c * e;
    Regroup(c, q, p);
    assert q * (c * p) == c * (q * p);
    if q < r { Scale(q, r, c * p); }
    if r < q { Scale(r, q, c * p); }
  }

  /** The drawdown with the starting capital counted as a day of its own. */
  function DrawdownFromStart(daily: seq<real>): real {
    Minimum(Drawdowns([1.0] + Equity(daily)))
  }

  /** On some day the curve is at least as far below its peak as its lowest point is below the starting capital. */
  ghost predicate DeeperLater(curve: seq<real>)
    requires |curve| > 0
  {
    exists j :: 0 <= j < |curve| && 1.0 + Drawdowns(curve)[j] <= Minimum(curve)
  }

  /**
   Leaving out the starting capital changes the result iff no later fall is as deep as the
   deepest fall below it; in particular it changes nothing unless the first day loses.
   */
  lemma StartMattersIff(daily: seq<real>)
    requires |daily| > 0 && forall k :: 0 <= k < |daily| ==> daily[k] >= -1.0
    ensures Solvent([1.0] + Equity(daily)) && IsWorstChange([1.0] + Equity(daily), DrawdownFromStart(daily))
    ensures MaxDrawdown(daily) == DrawdownFromStart(daily) <==> DeeperLater(Equity(daily))
    ensures daily[0] >= 0.0 ==> MaxDrawdown(daily) == DrawdownFromStart(daily)
  {
    hide *;
    var curve := Equity(daily);
    Parts(daily);
    EquityNonNegative(daily);
    StartIsSolvent(curve);
    CurveWorstChange([1.0] + curve);
    StartAdds(daily);
    DeeperIff(curve);
    MinOf(MaxDrawdown(daily), Minimum(curve) - 1.0);
    if daily[0] >= 0.0 { GainFirst(daily); }
  }

  lemma MinOf(a: real, b: real)
    ensures MinReal(a, b) == a <==> a <= b
  {
  }

  lemma StartIsSolvent(curve: seq<real>)
    requires NonNegative(curve)
    ensures Solvent([1.0] + curve)
  {
  }

  lemma DeeperIff(curve: seq<real>)
    requires |curve| > 0
    ensures DeeperLater(curve) <==> Minimum(Drawdowns(curve)) <= Minimum(curve) - 1.0
  {
    var dd := Drawdowns(curve);
    assert |dd| == |curve|;
    MinimumIsLeast(dd);
    hide Minimum, Drawdowns;
    var j :| 0 <= j < |dd| && Minimum(dd) == dd[j];
    if Minimum(dd) <= Minimum(curve) - 1.0 { assert 1.0 + dd[j] <= Minimum(curve); }
  }

  /** The functions of the source by their parts. */
  lemma Parts(daily: seq<real>)
    requires |daily| > 0
    ensures |Drawdowns([1.0] + Equity(daily))| > |Equity(daily)| > 0
    ensures MaxDrawdown(daily) == Minimum(Drawdowns(Equity(daily)))
    ensures DrawdownFromStart(daily) == Minimum(Drawdowns([1.0] + Equity(daily)))
  {
  }

  /** Counting the start can only deepen the drawdown, to the lowest point of the curve. */
  lemma StartAdds(daily: seq<real>)
    requires |daily| > 0 && forall k :: 0 <= k < |daily| ==> daily[k] >= -1.0
    ensures DrawdownFromStart(daily) == MinReal(MaxDrawdown(daily), Minimum(Equity(daily)) - 1.0)
  {
    hide *;
    var curve := Equity(daily);
    var full := [1.0] + curve;
    Parts(daily);
    EquityNonNegative(daily);
    StartIsSolvent(curve);
    DrawdownRange(daily);
    MinimumIsLeast(curve);
    CurveWorstChange(full);
    if daily[0] == -1.0 { LostAtOnce(daily); } else { DrawdownIsWorstChange(daily); }
    WorstWithStart(curve, MaxDrawdown(daily), Minimum(curve));
    OneWorstChange(full, Minimum(Drawdowns(full)), MinReal(MaxDrawdown(daily), Minimum(curve) - 1.0));
  }

  lemma WorstWithStart(curve: seq<real>, m: real, low: real)
    requires |curve| > 0 && m <= 0.0
    requires (forall i :: 0 <= i < |curve| ==> low <= curve[i]) && exists i :: 0 <= i < |curve| && low == curve[i]
    requires if curve[0] > 0.0 then IsWorstChange(curve, m)
             else m == -1.0 && forall i :: 0 <= i < |curve| ==> curve[i] == 0.0
    ensures IsWorstChange([1.0] + curve, MinReal(m, low - 1.0))
  {
    var full, worst := [1.0] + curve, MinReal(m, low - 1.0);
    forall i, j | 0 <= i <= j < |full| && full[i] > 0.0 ensures worst <= Change(full, i, j) {
      if i > 0 { assert Change(full, i, j) == Change(curve, i - 1, j - 1); }
    }
    var l :| 0 <= l < |curve| && low == curve[l];
    assert Change(full, 0, l + 1) == low - 1.0;
    if m < low - 1.0 {
      var i, j :| 0 <= i <= j < |curve| && curve[i] > 0.0 && m == Change(curve, i, j);
      assert Change(full, i + 1, j + 1) == m;
    }
  }

  lemma OneWorstChange(curve: seq<real>, m: real, n: real)
    requires IsWorstChange(curve, m) && IsWorstChange(curve, n)
    ensures m == n
  {
    hide Change;
    var i, j :| 0 <= i <= j < |curve| && curve[i] > 0.0 && m == Change(curve, i, j);
    var k, l :| 0 <= k <= l < |curve| && curve[k] > 0.0 && n == Change(curve, k, l);
    assert n <= Change(curve, i, j) && m <= Change(curve, k, l);
  }

  lemma GainFirst(daily: seq<real>)
    requires |daily| > 0 && daily[0] >= 0.0 && forall k :: 0 <= k < |daily| ==> daily[k] >= -1.0
    ensures DeeperLater(Equity(daily))
  {
    EquityNonNegative(daily);
    hide Equity;
    HighStart(Equity(daily));
  }

  lemma HighStart(curve: seq<real>)
    requires Solvent(curve) && curve[0] >= 1.0
    ensures DeeperLater(curve)
  {
    MinimumIsLeast(curve);
    hide Minimum;
    var j :| 0 <= j < |curve| && Minimum(curve) == curve[j];
    RunningMaxIsPeak(curve, j);
    hide RunningMax;
    var peak := RunningMax(curve)[j];
    assert curve[0] <= peak;
    LargerPeakWorse(curve[j], 1.0, peak);
    assert 1.0 + Drawdowns(curve)[j] == curve[j] / peak;
  }
}
