/** Outlier detection by z-score on returns, decided without square roots: |r - mean| / std > n is
    compared as (r - mean)^2 against n^2 times the sample variance. */
module Outliers {
  import opened Common

  /******* Returns *******/

  datatype Ret = Missing | Infinite | Known(r: real)

  function Change(before: Option<real>, now: Option<real>): Ret {
    if before.None? || now.None? then Missing
    else if before.value != 0.0 then Known(now.value / before.value - 1.0)
    else if now.value != 0.0 then Infinite
    else Missing
  }

  // pct_change: the first row has no return.
  function Returns(closes: seq<Option<real>>): (rs: seq<Ret>)
    ensures |rs| == |closes|
  {
    seq(|closes|, i requires 0 <= i < |closes| => if i == 0 then Missing else Change(closes[i - 1], closes[i]))
  }

  // The returns that mean() and std() see.
  function Values(rs: seq<Ret>): seq<real> {
    if rs == [] then []
    else Values(rs[..|rs| - 1]) + if rs[|rs| - 1].Known? then [rs[|rs| - 1].r] else []
  }

  function Sum(s: seq<real>): real {
    if s == [] then 0.0 else Sum(s[..|s| - 1]) + s[|s| - 1]
  }

  function Square(x: real): real {
    x * x
  }

  // The sum of squared distances from m.
  function Spread(s: seq<real>, m: real): real {
    if s == [] then 0.0 else Spread(s[..|s| - 1], m) + Square(s[|s| - 1] - m)
  }

  function Mean(s: seq<real>): real
    requires s != []
  {
    Sum(s) / (|s| as real)
  }

  // The sample variance, with n - 1 in the denominator.
  function Variance(s: seq<real>): real
    requires |s| >= 2
  {
    Spread(s, Mean(s)) / ((|s| - 1) as real)
  }

  // A zero or undefined deviation flags nothing: fewer than two returns, an infinite one, all the same.
  predicate Measurable(closes: seq<Option<real>>) {
    var rs := Returns(closes);
    && |closes| >= 3
    && (forall i :: 0 <= i < |rs| ==> !rs[i].Infinite?)
    && |Values(rs)| >= 2
    && Variance(Values(rs)) != 0.0
  }

  function Threshold(n: real, variance: real): real {
    Square(n) * variance
  }

  predicate Beyond(r: real, mean: real, variance: real, n: real) {
    n < 0.0 || Square(r - mean) > Threshold(n, variance)
  }

  predicate Flagged(rs: seq<Ret>, n: real, i: nat)
    requires i < |rs| && |Values(rs)| >= 2
  {
    rs[i].Known? && Beyond(rs[i].r, Mean(Values(rs)), Variance(Values(rs)), n)
  }

  function Detect(closes: seq<Option<real>>, n: real): (flags: seq<bool>)
    ensures |flags| == |closes|
  {
    seq(|closes|, i requires 0 <= i < |closes| => Measurable(closes) && Flagged(Returns(closes), n, i))
  }

  function CountTrue(flags: seq<bool>): nat {
    if flags == [] then 0 else CountTrue(flags[..|flags| - 1]) + if flags[|flags| - 1] then 1 else 0
  }

  /** The first row is never flagged. */
  lemma FirstRowNeverFlagged(closes: seq<Option<real>>, n: real)
    requires closes != []
    ensures !Detect(closes, n)[0]
  {
  }

  /******* How many rows can be flagged *******/

  // Values at a squared distance of more than t from m.
  function Far(s: seq<real>, m: real, t: real): nat {
    if s == [] then 0 else Far(s[..|s| - 1], m, t) + if Square(s[|s| - 1] - m) > t then 1 else 0
  }

  function Times(k: nat, t: real): real {
    if k == 0 then 0.0 else Times(k - 1, t) + t
  }

  lemma {:induction false} TimesIs(k: nat, t: real)
    ensures Times(k, t) == (k as real) * t
  {
    if k > 0 {
      TimesIs(k - 1, t);
      assert (k as real) * t == ((k - 1) as real) * t + t;
    }
  }

  lemma {:induction false} FarSpread(s: seq<real>, m: real, t: real)
    requires t >= 0.0
    ensures Times(Far(s, m, t), t) <= Spread(s, m)
    ensures Far(s, m, t) > 0 ==> Times(Far(s, m, t), t) < Spread(s, m)
  {
    if s != [] {
      FarSpread(s[..|s| - 1], m, t);
      assert Square(s[|s| - 1] - m) >= 0.0;
      hide Square;
    }
  }

  lemma {:induction false} FlagsAreFar(rs: seq<Ret>, flags: seq<bool>, m: real, t: real)
    requires |flags| == |rs|
    requires forall i :: 0 <= i < |rs| ==> (flags[i] <==> rs[i].Known? && Square(rs[i].r - m) > t)
    ensures CountTrue(flags) == Far(Values(rs), m, t)
  {
    if rs != [] {
      var k := |rs| - 1;
      FlagsAreFar(rs[..k], flags[..k], m, t);
      hide Square;
      var before := Values(rs[..k]);
      if rs[k].Known? {
        assert Values(rs) == before + [rs[k].r] && (before + [rs[k].r])[..|before|] == before;
      } else {
        assert before + [] == before;
      }
    }
  }

  // n^2 for each of count rows.
  function Weight(count: nat, n: real): real {
    (count as real) * Square(n)
  }

  lemma SpreadBound(count: nat, n: real, spread: real, d: real)
    requires spread > 0.0 && d > 0.0
    requires count > 0 ==> Times(count, Threshold(n, spread / d)) < spread
    ensures Weight(count, n) < d
  {
    var c := count as real;
    if count > 0 {
      TimesIs(count, Threshold(n, spread / d));
      PositiveQuotient(spread, d);
      Regroup(c, Square(n), spread / d);
      hide Square;
      Cancel(c * Square(n), spread / d, d);
    }
  }

  lemma Regroup(x: real, y: real, z: real)
    ensures x * (y * z) == (x * y) * z
  {
  }

  lemma Cancel(x: real, q: real, d: real)
    requires q > 0.0 && x * q < q * d
    ensures x < d
  {
    assert (d - x) * q > 0.0;
  }

  lemma {:induction false} SpreadNonNegative(s: seq<real>, m: real)
    ensures Spread(s, m) >= 0.0
  {
    if s != [] {
      SpreadNonNegative(s[..|s| - 1], m);
      assert Square(s[|s| - 1] - m) >= 0.0;
    }
  }

  lemma VariancePositive(s: seq<real>)
    requires |s| >= 2 && Variance(s) != 0.0
    ensures Spread(s, Mean(s)) > 0.0 && Variance(s) > 0.0
  {
    SpreadNonNegative(s, Mean(s));
    var d := (|s| - 1) as real;
    assert Variance(s) * d == Spread(s, Mean(s));
  }

  /** A Chebyshev bound: of N known returns with a non-zero deviation, the number flagged at n
      deviations is less than (N - 1) / n^2. */
  lemma FewAreFlagged(closes: seq<Option<real>>, n: real)
    requires n >= 0.0 && Measurable(closes)
    ensures Weight(CountTrue(Detect(closes, n)), n) < ((|Values(Returns(closes))| - 1) as real)
  {
    var rs := Returns(closes);
    var s := Values(rs);
    hide Square, Mean, Variance, Values, Returns, Threshold;
    FlagsAreFar(rs, Detect(closes, n), Mean(s), Threshold(n, Variance(s)));
    FarAreFew(s, n);
  }

  lemma FarAreFew(s: seq<real>, n: real)
    requires |s| >= 2 && Variance(s) != 0.0
    ensures Weight(Far(s, Mean(s), Threshold(n, Variance(s))), n) < ((|s| - 1) as real)
  {
    VariancePositive(s);
    ThresholdNonNegative(n, Variance(s));
    FarSpread(s, Mean(s), Threshold(n, Variance(s)));
    assert Variance(s) == Spread(s, Mean(s)) / ((|s| - 1) as real);
    hide *;
    SpreadBound(Far(s, Mean(s), Threshold(n, Variance(s))), n, Spread(s, Mean(s)), (|s| - 1) as real);
  }

  lemma ThresholdNonNegative(n: real, v: real)
    requires v > 0.0
    ensures Threshold(n, v) >= 0.0
  {
    NonNegative(Square(n), v);
  }

  /** At five deviations a series with at most 26 known returns has no outlier ... */
  lemma NoOutlierIn26(closes: seq<Option<real>>)
    requires |Values(Returns(closes))| <= 26
    ensures CountTrue(Detect(closes, 5.0)) == 0
  {
    if Measurable(closes) {
      FewAreFlagged(closes, 5.0);
      assert Square(5.0) == 25.0;
    } else {
      NoneTrue(Detect(closes, 5.0));
    }
  }

  lemma {:induction false} NoneTrue(flags: seq<bool>)
    requires forall i :: 0 <= i < |flags| ==> !flags[i]
    ensures CountTrue(flags) == 0
  {
    if flags != [] {
      NoneTrue(flags[..|flags| - 1]);
    }
  }

  /******* ... and with 27 it can *******/

  // A price that stands still n times and then doubles.
  function StandStill(n: nat): seq<Option<real>> {
    seq(n + 1, _ => Some(1.0)) + [Some(2.0)]
  }

  function Zeros(n: nat): seq<real> {
    seq(n, _ => 0.0)
  }

  lemma {:induction false} ZerosSpread(n: nat, m: real)
    ensures Sum(Zeros(n)) == 0.0 && Spread(Zeros(n), m) == Times(n, Square(m))
  {
    if n > 0 {
      ZerosSpread(n - 1, m);
      assert Zeros(n)[..n - 1] == Zeros(n - 1);
      assert Square(0.0 - m) == Square(m);
    }
  }

  lemma {:induction false} ValuesOfZeros(rs: seq<Ret>)
    requires rs != [] && rs[0].Missing? && forall i :: 1 <= i < |rs| ==> rs[i] == Known(0.0)
    ensures Values(rs) == Zeros(|rs| - 1)
  {
    if |rs| > 1 {
      ValuesOfZeros(rs[..|rs| - 1]);
    }
  }

  lemma StandStillReturns(n: nat)
    ensures var rs := Returns(StandStill(n));
            && |rs| == n + 2
            && rs[0] == Missing
            && rs[n + 1] == Known(1.0)
            && forall i :: 1 <= i <= n ==> rs[i] == Known(0.0)
  {
    assert Change(Some(1.0), Some(1.0)) == Known(0.0) && Change(Some(1.0), Some(2.0)) == Known(1.0);
    hide Change;
  }

  lemma StandStillValues(n: nat)
    ensures Values(Returns(StandStill(n))) == Zeros(n) + [1.0]
  {
    var rs := Returns(StandStill(n));
    StandStillReturns(n);
    hide Returns, StandStill, Zeros;
    ValuesOfZeros(rs[..n + 1]);
  }

  lemma StandStillSpread(s: seq<real>, m: real)
    requires s == Zeros(26) + [1.0] && m == 1.0 / 27.0
    ensures Mean(s) == m && Spread(s, m) == 26.0 * Square(m) + Square(1.0 - m)
  {
    assert |s| == 27 && s[..26] == Zeros(26);
    ZerosSpread(26, m);
    TimesIs(26, Square(m));
    hide Zeros, Square, Times;
  }

  /** Twenty-six flat hours and one doubling: the twenty-seventh return is flagged at five deviations. */
  lemma OutlierIn27()
    ensures |Values(Returns(StandStill(26)))| == 27
    ensures Detect(StandStill(26), 5.0)[27]
  {
    var c := StandStill(26);
    var s := Zeros(26) + [1.0];
    var m := 1.0 / 27.0;
    assert |c| == 28 && |s| == 27;
    StandStillReturns(26);
    StandStillValues(26);
    StandStillSpread(s, m);
    OutlierFigures(m, Spread(s, m));
    hide StandStill, Values, Returns, Zeros, Spread, Square, Mean, Threshold;
    assert Variance(s) == Spread(s, m) / 26.0;
    assert Returns(c)[27] == Known(1.0);
    assert Measurable(c);
    assert Flagged(Returns(c), 5.0, 27);
  }

  lemma OutlierFigures(m: real, spread: real)
    requires m == 1.0 / 27.0 && spread == 26.0 * Square(m) + Square(1.0 - m)
    ensures spread / 26.0 != 0.0
    ensures Square(1.0 - m) > Threshold(5.0, spread / 26.0)
  {
    assert Square(m) == 1.0 / 729.0 && Square(1.0 - m) == 676.0 / 729.0 && Square(5.0) == 25.0;
  }
}
