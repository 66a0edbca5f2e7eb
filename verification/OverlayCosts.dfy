/** Consequences of the cost law: when a higher cost cannot leave more equity, and when it can. */
module OverlayCosts {
  import opened Common
  import opened Signal
  import opened OverlaySim
  import opened OverlayLaws

  lemma {:induction false} PowerRange(q: real, n: nat)
    requires 0.0 <= q <= 1.0
    ensures 0.0 <= Power(q, n) <= 1.0
  {
    if n > 0 {
      PowerRange(q, n - 1);
      ProductRange(Power(q, n - 1), q);
    }
  }

  lemma ProductRange(x: real, y: real)
    requires 0.0 <= x && 0.0 <= y <= 1.0
    ensures 0.0 <= x * y <= x
  {
    NonNegative(x, y);
    NonNegative(x, 1.0 - y);
    assert x * (1.0 - y) == x - x * y;
  }

  // Powers grow with their base, strictly once there is anything to multiply.
  lemma {:induction false} PowerMonotone(p: real, q: real, n: nat)
    requires 0.0 <= p < q
    ensures 0.0 <= Power(p, n) <= Power(q, n)
    ensures n > 0 ==> Power(p, n) < Power(q, n)
  {
    if n > 0 {
      PowerMonotone(p, q, n - 1);
      PowerPositive(q, n - 1);
      LessTimes(Power(p, n - 1), Power(q, n - 1), p, q);
    }
  }

  lemma {:induction false} PowerPositive(q: real, n: nat)
    requires q > 0.0
    ensures Power(q, n) > 0.0
  {
    if n > 0 {
      PowerPositive(q, n - 1);
    }
  }

  lemma LessTimes(a: real, b: real, p: real, q: real)
    requires 0.0 <= a <= b && 0.0 < b && 0.0 <= p < q
    ensures 0.0 <= a * p < b * q
  {
    assert b * q - a * p == b * (q - p) + (b - a) * p;
    assert b * (q - p) > 0.0 && (b - a) * p >= 0.0 && a * p >= 0.0;
  }

  lemma TimesOrder(e: real, x: real, y: real)
    requires x < y
    ensures Times(e, x) <= Times(e, y) <==> e >= 0.0
  {
    assert Times(e, y) - Times(e, x) == e * (y - x);
    if e >= 0.0 { assert e * (y - x) >= 0.0; } else { assert e * (y - x) < 0.0; }
  }

  lemma DearerPower(e: real, low: real, high: real, k: nat)
    requires low <= high <= 1.0
    ensures Times(e, Power(1.0 - high, k)) <= Times(e, Power(1.0 - low, k)) <==> e >= 0.0 || k == 0 || low == high
  {
    hide Times;
    if k > 0 && low < high {
      PowerMonotone(1.0 - high, 1.0 - low, k);
      hide Power;
      TimesOrder(e, Power(1.0 - high, k), Power(1.0 - low, k));
    }
  }

  /******* Zero-cost equity in closed form *******/

  // What bar k multiplies equity by, costs apart.
  function Factor(c: seq<real>, sig: seq<real>, w: real, mode: Mode, k: nat): real
    requires NonZero(c) && |sig| == |c| && 0 < k < |c|
  {
    Growth(Exposure(mode, w, sig[k]), Return(c, k))
  }

  // The product of the factors up to bar j.
  function Gross(c: seq<real>, sig: seq<real>, w: real, mode: Mode, j: nat): real
    requires NonZero(c) && |sig| == |c| && j < |c|
  {
    if j == 0 then 1.0 else Times(Gross(c, sig, w, mode, j - 1), Factor(c, sig, w, mode, j))
  }

  /** Without costs each bar's equity is the product of what the bars so far multiply it by. */
  lemma {:induction false} ZeroCostIsGross(c: seq<real>, sig: seq<real>, w: real, mode: Mode, i: nat, j: nat)
    requires NonZero(c) && |sig| == |c| && j <= i < |c|
    ensures SimpleBook(c, sig, w, 0.0, mode, i).eq[j] == Gross(c, sig, w, mode, j)
  {
    if i > 0 {
      var b := SimpleBook(c, sig, w, 0.0, mode, i - 1);
      ZeroCostIsGross(c, sig, w, mode, i - 1, if j < i then j else j - 1);
      ZeroCostStep(c, sig[i], w, mode, i, b);
      hide SimpleStep;
    }
  }

  lemma ZeroCostStep(c: seq<real>, target: real, w: real, mode: Mode, i: nat, b: Book)
    requires NonZero(c) && 0 < i < |c| == |b.eq|
    ensures var b' := SimpleStep(c, target, w, 0.0, mode, i, b);
            && b'.eq[i] == Times(b.eq[i - 1], Growth(Exposure(mode, w, target), Return(c, i)))
            && forall j :: 0 <= j < i ==> b'.eq[j] == b.eq[j]
  {
    assert Fee(Abs(target - b.pos), w, 0.0) == 0.0;
    hide Growth, Return, Exposure, Fee, Units, Abs;
    TimesOne(b.eq[i - 1]);
  }

  // Bars that turn the account's sign, and whether one wipes it out.
  function Ruins(c: seq<real>, sig: seq<real>, w: real, mode: Mode, j: nat): nat
    requires NonZero(c) && |sig| == |c| && j < |c|
  {
    if j == 0 then 0 else Ruins(c, sig, w, mode, j - 1) + if Factor(c, sig, w, mode, j) < 0.0 then 1 else 0
  }

  predicate WipedOut(c: seq<real>, sig: seq<real>, w: real, mode: Mode, j: nat)
    requires NonZero(c) && |sig| == |c| && j < |c|
  {
    exists k :: 0 < k <= j && Factor(c, sig, w, mode, k) == 0.0
  }

  lemma SignOfTimes(x: real, y: real)
    ensures x == 0.0 || y == 0.0 ==> Times(x, y) == 0.0
    ensures x != 0.0 && y != 0.0 ==> Times(x, y) != 0.0 && (Times(x, y) > 0.0 <==> (x > 0.0 <==> y > 0.0))
  {
    if x > 0.0 && y < 0.0 { assert x * (0.0 - y) > 0.0; }
    if x < 0.0 && y > 0.0 { assert (0.0 - x) * y > 0.0; }
    if x < 0.0 && y < 0.0 { assert (0.0 - x) * (0.0 - y) > 0.0; }
  }

  lemma {:induction false} GrossSign(c: seq<real>, sig: seq<real>, w: real, mode: Mode, j: nat)
    requires NonZero(c) && |sig| == |c| && j < |c|
    ensures Gross(c, sig, w, mode, j) == 0.0 <==> WipedOut(c, sig, w, mode, j)
    ensures !WipedOut(c, sig, w, mode, j) ==> (Gross(c, sig, w, mode, j) > 0.0 <==> Ruins(c, sig, w, mode, j) % 2 == 0)
  {
    if j > 0 {
      GrossSign(c, sig, w, mode, j - 1);
      SignOfTimes(Gross(c, sig, w, mode, j - 1), Factor(c, sig, w, mode, j));
      hide Factor, Times;
      assert WipedOut(c, sig, w, mode, j) <==> WipedOut(c, sig, w, mode, j - 1) || Factor(c, sig, w, mode, j) == 0.0;
    }
  }

  /** A higher cost leaves a bar no richer exactly when the account was wiped out or ruined an even
      number of times by then, or the bar has paid for no switch, or the rates are equal. */
  lemma CostlierIsNoRicher(c: seq<real>, sig: seq<real>, w: real, low: real, high: real, mode: Mode, i: nat, j: nat)
    requires NonZero(c) && |sig| == |c| && j <= i < |c| && Binary(sig)
    requires Rate(w, low) <= Rate(w, high) <= 1.0
    ensures SimpleBook(c, sig, w, high, mode, i).eq[j] <= SimpleBook(c, sig, w, low, mode, i).eq[j] <==>
            || WipedOut(c, sig, w, mode, j) || Ruins(c, sig, w, mode, j) % 2 == 0
            || Charged(sig, j, i) == 0 || Rate(w, low) == Rate(w, high)
  {
    hide *;
    CostAt(c, sig, w, low, mode, i, j);
    CostAt(c, sig, w, high, mode, i, j);
    GrossSign(c, sig, w, mode, j);
    DearerPower(Gross(c, sig, w, mode, j), Rate(w, low), Rate(w, high), Charged(sig, j, i));
  }

  /** Net of costs: the product of the bars' factors and of the cost factor to the switches paid for. */
  lemma CostAt(c: seq<real>, sig: seq<real>, w: real, cost: real, mode: Mode, i: nat, j: nat)
    requires NonZero(c) && |sig| == |c| && j <= i < |c| && Binary(sig)
    ensures SimpleBook(c, sig, w, cost, mode, i).eq[j] ==
            Times(Gross(c, sig, w, mode, j), Power(1.0 - Rate(w, cost), Charged(sig, j, i)))
  {
    ZeroCostIsGross(c, sig, w, mode, i, j);
    hide SimpleBook, Charged, Times, Power, Rate, Gross;
    CostIsAPower(c, sig, w, cost, mode, i);
    assert CostsFactor(c, sig, w, cost, mode, i, j);
  }

  /******* When equity stays positive *******/

  // A growth factor between cash and holding the asset keeps equity positive and loses no more than holding.
  lemma GrowthBounds(e: real, r: real)
    requires 0.0 <= e <= 1.0 && r > -1.0
    ensures Growth(e, r) > 0.0 && Growth(e, r) >= Min(1.0, 1.0 + r)
  {
    if r >= 0.0 {
      assert e * r >= 0.0;
    } else {
      assert (1.0 - e) * (0.0 - r) >= 0.0;
      assert (1.0 - e) * (0.0 - r) == e * r - r;
    }
  }

  lemma ReturnBound(c: seq<real>, i: nat)
    requires Positive(c) && 0 < i < |c|
    ensures NonZero(c) && Return(c, i) > -1.0
  {
    DivisionSign(c[i], c[i - 1]);
  }

  lemma ExposureRange(w: real, pos: real)
    requires 0.0 <= w <= 1.0 && 0.0 <= pos <= 1.0
    ensures 0.0 <= Exposure(ReduceOff, w, pos) <= 1.0
  {
    ProductRange(w, pos);
  }

  // With the whole position in add_on mode a bar multiplies equity by 1 + (1 + w) r.
  predicate NoRuin(c: seq<real>, w: real, mode: Mode)
    requires NonZero(c)
  {
    mode == ReduceOff || forall i :: 0 < i < |c| ==>
      Growth(1.0, Return(c, i)) > 0.0 && Growth(1.0 + w, Return(c, i)) > 0.0
  }

  lemma {:induction false} ZeroCostPositive(c: seq<real>, sig: seq<real>, w: real, mode: Mode, i: nat)
    requires Positive(c) && NonZero(c) && |sig| == |c| && i < |c| && Binary(sig)
    requires mode != Other && (mode == ReduceOff ==> 0.0 <= w <= 1.0) && NoRuin(c, w, mode)
    ensures forall j :: 0 <= j < |c| ==> SimpleBook(c, sig, w, 0.0, mode, i).eq[j] > 0.0
  {
    if i > 0 {
      ZeroCostPositive(c, sig, w, mode, i - 1);
      SimplePosition(c, sig, w, 0.0, mode, i - 1);
      StepPositive(c, sig[i], w, mode, i, SimpleBook(c, sig, w, 0.0, mode, i - 1));
    }
  }

  lemma StepPositive(c: seq<real>, target: real, w: real, mode: Mode, i: nat, b: Book)
    requires Positive(c) && NonZero(c) && 0 < i < |c| == |b.eq|
    requires mode != Other && (mode == ReduceOff ==> 0.0 <= w <= 1.0) && NoRuin(c, w, mode)
    requires (target == 0.0 || target == 1.0) && (b.pos == 0.0 || b.pos == 1.0)
    requires forall j :: 0 <= j < |c| ==> b.eq[j] > 0.0
    ensures forall j :: 0 <= j < |c| ==> SimpleStep(c, target, w, 0.0, mode, i, b).eq[j] > 0.0
  {
    var factor := Growth(Exposure(mode, w, target), Return(c, i));
    assert factor > 0.0 by {
      if mode == ReduceOff {
        ReturnBound(c, i);
        ExposureRange(w, target);
        GrowthBounds(Exposure(mode, w, target), Return(c, i));
      } else {
        assert w * 0.0 == 0.0 && w * 1.0 == w;
      }
    }
    hide Growth, Return, Exposure;
    FeeOfOne(w, 0.0);
    hide Fee, Units;
    TimesOne(b.eq[i - 1]);
    assert Times(b.eq[i - 1], factor) > 0.0;
  }

  /** So with positive prices, and in add_on mode no single-bar ruin, equity never rises with cost. */
  lemma EquityFallsWithCost(c: seq<real>, sig: seq<real>, w: real, low: real, high: real, mode: Mode, i: nat, j: nat)
    requires Positive(c) && NonZero(c) && |sig| == |c| && j <= i < |c| && Binary(sig)
    requires mode != Other && (mode == ReduceOff ==> 0.0 <= w <= 1.0) && NoRuin(c, w, mode)
    requires Rate(w, low) <= Rate(w, high) <= 1.0
    ensures SimpleBook(c, sig, w, high, mode, i).eq[j] <= SimpleBook(c, sig, w, low, mode, i).eq[j]
  {
    hide *;
    ZeroCostPositive(c, sig, w, mode, i);
    ZeroCostIsGross(c, sig, w, mode, i, j);
    GrossSign(c, sig, w, mode, j);
    CostlierIsNoRicher(c, sig, w, low, high, mode, i, j);
  }

  /******* No overlay *******/

  /** Without an overlay weight, whatever the signal, costs and mode, equity is the price relative. */
  lemma {:induction false} NoOverlayIsHolding(c: seq<real>, sig: seq<real>, cost: real, mode: Mode, i: nat)
    requires NonZero(c) && |sig| == |c| && i < |c|
    ensures forall j :: 0 <= j <= i ==> SimpleBook(c, sig, 0.0, cost, mode, i).eq[j] == c[j] / c[0]
  {
    if i > 0 {
      NoOverlayIsHolding(c, sig, cost, mode, i - 1);
      NoOverlayStep(c, sig[i], cost, mode, i, SimpleBook(c, sig, 0.0, cost, mode, i - 1));
    }
  }

  lemma NoOverlayStep(c: seq<real>, target: real, cost: real, mode: Mode, i: nat, b: Book)
    requires NonZero(c) && 0 < i < |c| == |b.eq| && b.eq[i - 1] == c[i - 1] / c[0]
    ensures var b' := SimpleStep(c, target, 0.0, cost, mode, i, b);
            && b'.eq[i] == c[i] / c[0]
            && forall j :: 0 <= j < i ==> b'.eq[j] == b.eq[j]
  {
    var factor := Growth(Exposure(mode, 0.0, target), Return(c, i));
    assert factor == c[i] / c[i - 1] by {
      assert 0.0 * target == 0.0;
    }
    assert Fee(Abs(target - b.pos), 0.0, cost) == 0.0;
    hide Growth, Return, Exposure, Fee, Units, Abs;
    TimesOne(b.eq[i - 1]);
    Telescope(c[0], c[i - 1], c[i]);
  }

  lemma Telescope(x: real, y: real, z: real)
    requires x != 0.0 && y != 0.0
    ensures Times(y / x, z / y) == z / x
  {
    var a, b := y / x, z / y;
    assert a * x == y && b * y == z;
    assert (a * b) * x == z by {
      assert (a * b) * x == b * (a * x);
    }
  }
}
