/** Which rows are outliers, in numbers: without quotients of sums, deviations or square roots. */
module OutlierFlags {
  import opened Common
  import opened Columns
  import opened Outliers

  /******* The returns that are known *******/

  // A price and the one before it are present, and the one before it is not zero.
  ghost predicate HasReturn(closes: Column, i: nat) {
    0 < i < |closes| && closes[i].Some? && closes[i - 1].Some? && closes[i - 1].value != 0.0
  }

  // A jump from zero has no finite return.
  ghost predicate JumpsFromZero(closes: Column, i: nat) {
    0 < i < |closes| && closes[i - 1] == Some(0.0) && closes[i].Some? && closes[i].value != 0.0
  }

  lemma ReturnIs(closes: Column, i: nat)
    requires i < |closes|
    ensures Returns(closes)[i].Known? <==> HasReturn(closes, i)
    ensures Returns(closes)[i].Infinite? <==> JumpsFromZero(closes, i)
  {
  }

  /** The known returns, row by row: each is the relative change of its row's price. */
  lemma KnownReturns(closes: Column)
    requires closes != []
    ensures var i, s := |closes| - 1, Values(Returns(closes[..|closes| - 1]));
            && Values(Returns([])) == []
            && Values(Returns(closes)) ==
               if HasReturn(closes, i) then s + [closes[i].value / closes[i - 1].value - 1.0] else s
  {
    var i := |closes| - 1;
    LastReturn(closes);
    hide Returns, HasReturn;
    assert Values(Returns(closes[..i])) + [] == Values(Returns(closes[..i]));
  }

  lemma LastReturn(closes: Column)
    requires closes != []
    ensures var i, rs := |closes| - 1, Returns(closes);
            && rs[..i] == Returns(closes[..i]) && Returns([]) == []
            && (rs[i].Known? <==> HasReturn(closes, i))
            && (HasReturn(closes, i) ==> rs[i].r == closes[i].value / closes[i - 1].value - 1.0)
  {
  }

  /******* The mean and the deviation *******/

  lemma SumIs(s: seq<real>, x: real)
    ensures Sum([]) == 0.0 && Sum(s + [x]) == Sum(s) + x
  {
    assert (s + [x])[..|s|] == s;
  }

  lemma SpreadIs(s: seq<real>, x: real, m: real)
    ensures Spread([], m) == 0.0 && Spread(s + [x], m) == Spread(s, m) + (x - m) * (x - m)
  {
    assert (s + [x])[..|s|] == s;
  }

  lemma {:induction false} SpreadZero(s: seq<real>, m: real)
    ensures Spread(s, m) >= 0.0
    ensures Spread(s, m) == 0.0 <==> forall k :: 0 <= k < |s| ==> s[k] == m
  {
    if s != [] {
      SpreadZero(s[..|s| - 1], m);
      var d := s[|s| - 1] - m;
      SquareZero(d);
      hide Square;
    }
  }

  lemma SquareZero(d: real)
    ensures d == 0.0 ==> Square(d) == 0.0
    ensures d != 0.0 ==> Square(d) > 0.0
  {
    if d > 0.0 {
      SquarePositive(-d, d);
      assert d * d == (-d) * (-d);
    } else if d < 0.0 {
      SquarePositive(d, -d);
    }
  }

  lemma SquarePositive(d: real, e: real)
    requires e == -d && e > 0.0
    ensures Square(d) > 0.0
  {
    assert e * e > 0.0;
    assert d * (d + e) == 0.0;
    assert d * d + d * e == 0.0 && d * e + e * e == 0.0;
  }

  lemma {:induction false} SumOfSame(s: seq<real>, x: real)
    requires forall k :: 0 <= k < |s| ==> s[k] == x
    ensures Sum(s) == (|s| as real) * x
  {
    if s != [] {
      SumOfSame(s[..|s| - 1], x);
      assert (|s| as real) * x == ((|s| - 1) as real) * x + x;
    }
  }

  lemma MeanIs(s: seq<real>, m: real)
    requires s != []
    ensures m == Mean(s) ==> m * (|s| as real) == Sum(s)
    ensures m * (|s| as real) == Sum(s) ==> m == Mean(s)
  {
    assert Mean(s) * (|s| as real) == Sum(s);
    hide Mean, Sum;
    if m == Mean(s) {
      assert m * (|s| as real) == Mean(s) * (|s| as real);
      assert m * (|s| as real) == Sum(s);
    } else if m * (|s| as real) == Sum(s) {
      SameFactor(m, Mean(s), |s| as real);
      assert false;
    }
  }

  lemma SameFactor(x: real, y: real, n: real)
    requires n > 0.0 && x * n == y * n
    ensures x == y
  {
    assert (x - y) * n == 0.0;
  }

  // Two returns differ.
  ghost predicate Varied(s: seq<real>) {
    exists i, j :: 0 <= i < j < |s| && s[i] != s[j]
  }

  lemma VarianceZero(s: seq<real>)
    requires |s| >= 2
    ensures Variance(s) == 0.0 <==> !Varied(s)
  {
    var m, d := Mean(s), (|s| - 1) as real;
    assert Variance(s) * d == Spread(s, m);
    SpreadZero(s, m);
    hide Variance, Spread, Mean;
    if !Varied(s) {
      forall k | 0 <= k < |s| ensures s[k] == s[0] {
        assert k == 0 || !(s[0] != s[k]);
      }
      SumOfSame(s, s[0]);
      MeanIs(s, s[0]);
    }
  }

  // Products under a name, so that equal factors make equal products.
  function Product(x: real, y: real): real {
    x * y
  }

  lemma Scale(x: real, n: real, v: real, spread: real, d: real)
    requires d > 0.0 && v * d == spread
    ensures x > Threshold(n, v) <==> Product(x, d) > Product(Square(n), spread)
  {
    var q := Square(n);
    hide Square;
    assert q * spread == (q * v) * d;
    if x > q * v {
      assert (x - q * v) * d > 0.0;
    } else {
      assert (q * v - x) * d >= 0.0;
    }
  }

  lemma BeyondIs(r: real, s: seq<real>, n: real)
    requires |s| >= 2
    ensures Beyond(r, Mean(s), Variance(s), n) <==>
            n < 0.0 ||
            Product(Square(r - Mean(s)), (|s| - 1) as real) > Product(Square(n), Spread(s, Mean(s)))
  {
    var d := (|s| - 1) as real;
    assert Variance(s) * d == Spread(s, Mean(s));
    hide Product, Square, Mean, Spread, Threshold, Variance;
    Scale(Square(r - Mean(s)), n, Variance(s), Spread(s, Mean(s)), d);
  }

  // r is more than n sample deviations from the mean of s, on either side.
  ghost predicate FarOut(r: real, s: seq<real>, n: real) {
    n < 0.0 || exists m :: FarFrom(r, s, n, m)
  }

  ghost predicate FarFrom(r: real, s: seq<real>, n: real, m: real) {
    m * (|s| as real) == Sum(s) && (r - m) * (r - m) * ((|s| - 1) as real) > n * n * Spread(s, m)
  }

  lemma FarOutIs(r: real, s: seq<real>, n: real)
    requires |s| >= 2
    ensures Beyond(r, Mean(s), Variance(s), n) <==> FarOut(r, s, n)
  {
    BeyondIs(r, s, n);
    MeanIs(s, Mean(s));
    FarFromIs(r, s, n, Mean(s));
    hide Beyond, Mean, Variance, Spread, Square, Product, FarFrom;
    if m :| FarFrom(r, s, n, m) {
      FarFromIs(r, s, n, m);
      MeanIs(s, m);
    }
  }

  lemma FarFromIs(r: real, s: seq<real>, n: real, m: real)
    ensures FarFrom(r, s, n, m) <==>
            && m * (|s| as real) == Sum(s)
            && Product(Square(r - m), (|s| - 1) as real) > Product(Square(n), Spread(s, m))
  {
  }

  /** A row is flagged exactly when the table has three rows and no jump from zero, two of its returns differ, and
      the row's own return is that many deviations from their mean. */
  lemma DetectExactly(closes: Column, n: real, i: nat)
    requires i < |closes|
    ensures var s := Values(Returns(closes));
            Detect(closes, n)[i] <==>
            && |closes| >= 3 && (forall k: nat :: !JumpsFromZero(closes, k)) && Varied(s)
            && HasReturn(closes, i) && FarOut(closes[i].value / closes[i - 1].value - 1.0, s, n)
  {
    var rs, s := Returns(closes), Values(Returns(closes));
    ReturnIs(closes, i);
    assert HasReturn(closes, i) ==> rs[i] == Known(closes[i].value / closes[i - 1].value - 1.0);
    hide Returns, Values, Variance, Mean, Beyond, FarOut;
    assert (forall k :: 0 <= k < |rs| ==> !rs[k].Infinite?) <==> forall k: nat :: !JumpsFromZero(closes, k) by {
      forall k: nat ensures k < |closes| ==> (Returns(closes)[k].Infinite? <==> JumpsFromZero(closes, k)) {
        if k < |closes| { ReturnIs(closes, k); }
      }
    }
    hide HasReturn, JumpsFromZero;
    if |s| >= 2 {
      VarianceZero(s);
      if rs[i].Known? { FarOutIs(rs[i].r, s, n); }
    }
  }
}
