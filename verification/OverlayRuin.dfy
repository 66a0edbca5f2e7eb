/** A price series on which a higher cost leaves the overlay account richer, for every pair of windows
    and every weight: in add_on mode one crash on a fully invested bar leaves the account in debt, and
    the fee paid before makes the debt smaller. */
module OverlayRuin {
  import opened Common
  import opened Signal
  import opened OverlaySim
  import opened OverlayLaws
  import opened OverlayCosts

  // What the last bar falls to, from 2: low enough to ruin an exposure of 1 + w.
  function Bottom(w: real): (x: real)
    requires w > 0.0
    ensures x > 0.0 && (1.0 + w) * x == w
  {
    PositiveQuotient(w, 1.0 + w);
    w / (1.0 + w)
  }

  // Flat at 1, up to 2, and down: as many bars as the program asks for.
  function Crash(p: Pair, w: real): (c: seq<real>)
    requires w > 0.0
    ensures |c| == p.slow + 5
  {
    seq(p.slow + 5, i
      requires 0 <= i < p.slow + 5 => if i < p.slow + 3 then 1.0 else if i == p.slow + 3 then 2.0 else Bottom(w))
  }

  lemma {:induction false} SumOfOnes(c: seq<real>, lo: nat, hi: nat)
    requires lo <= hi <= |c| && forall i :: lo <= i < hi ==> c[i] == 1.0
    ensures Sum(c, lo, hi) == (hi - lo) as real
  {
    if lo < hi {
      SumOfOnes(c, lo, hi - 1);
    }
  }

  lemma MeanOfOnes(c: seq<real>, k: nat, i: nat)
    requires 0 < k <= i + 1 <= |c| && forall j :: 0 <= j <= i ==> c[j] == 1.0
    ensures Mean(c, k, i) == 1.0
  {
    SumOfOnes(c, i + 1 - k, i + 1);
    OwnQuotient(k as real);
  }

  lemma OwnQuotient(x: real)
    requires x > 0.0
    ensures x / x == 1.0
  {
  }

  lemma MeanOfRise(c: seq<real>, k: nat, i: nat)
    requires 0 < k <= i + 1 <= |c| && c[i] == 2.0 && forall j :: 0 <= j < i ==> c[j] == 1.0
    ensures Mean(c, k, i) == ((k + 1) as real) / (k as real)
  {
    SumOfOnes(c, i + 1 - k, i);
  }

  lemma ScaledOrder(x: real, y: real, z: real)
    requires x <= y && z > 0.0
    ensures x * z <= y * z && (x < y ==> z * x < z * y)
  {
    if x < y {
      ProductPositive(y - x, z);
      assert (y - x) * z == y * z - x * z;
    }
  }

  lemma Reciprocals(f: real, s: real, a: real, b: real)
    requires 0.0 < f < s && a * f == 1.0 && b * s == 1.0 && b > 0.0
    ensures a > b
  {
    ScaledOrder(f, s, b);
    if a <= b {
      ScaledOrder(a, b, f);
    }
  }

  lemma ShorterRises(f: real, s: real)
    requires 0.0 < f < s
    ensures (f + 1.0) / f > (s + 1.0) / s
  {
    PositiveQuotient(1.0, f);
    PositiveQuotient(1.0, s);
    Reciprocals(f, s, 1.0 / f, 1.0 / s);
    OwnQuotient(f);
    OwnQuotient(s);
    assert (f + 1.0) / f == f / f + 1.0 / f && (s + 1.0) / s == s / s + 1.0 / s;
  }

  // The program's own signal: invested on the last bar alone.
  lemma CrashSignal(p: Pair, w: real)
    requires ValidPair(p) && p.fast < p.slow && w > 0.0
    ensures var sig := TradedSignal(Crash(p, w), p, 0.0);
            sig[p.slow + 4] == 1.0 && forall i :: 0 <= i < p.slow + 4 ==> sig[i] == 0.0
  {
    var c, top := Crash(p, w), p.slow + 3;
    MeanOfRise(c, p.fast, top);
    MeanOfRise(c, p.slow, top);
    ShorterRises(p.fast as real, p.slow as real);
    forall i | 0 <= i < top ensures !FastAbove(c, p, i) {
      if Warm(p, i) {
        MeanOfOnes(c, p.fast, i);
        MeanOfOnes(c, p.slow, i);
      }
    }
    hide Mean;
    assert FastAbove(c, p, top);
  }

  lemma {:induction false} NoSwitches(sig: seq<real>, i: nat)
    requires i < |sig| && forall k :: 0 <= k <= i ==> sig[k] == 0.0
    ensures Switches(sig, i) == 0
  {
    if i > 0 {
      NoSwitches(sig, i - 1);
    }
  }

  lemma IdleFactor(w: real, r: real)
    ensures Growth(Exposure(AddOn, w, 0.0), r) == 1.0 + r
  {
    assert w * 0.0 == 0.0;
  }

  lemma RuinFactor(w: real, x: real)
    requires (1.0 + w) * x == w
    ensures Growth(Exposure(AddOn, w, 1.0), x / 2.0 - 1.0) == -w / 2.0
  {
    assert w * 1.0 == w;
    assert (1.0 + w) * (x / 2.0 - 1.0) == ((1.0 + w) * x) / 2.0 - (1.0 + w);
  }

  lemma CrashFactors(p: Pair, w: real, k: nat)
    requires ValidPair(p) && p.fast < p.slow && w > 0.0 && 0 < k < p.slow + 5
    ensures Positive(Crash(p, w)) && NonZero(Crash(p, w))
    ensures var f := Factor(Crash(p, w), TradedSignal(Crash(p, w), p, 0.0), w, AddOn, k);
            if k < p.slow + 4 then f > 0.0 else f == -w / 2.0
  {
    var c := Crash(p, w);
    CrashSignal(p, w);
    assert Bottom(w) > 0.0;
    assert forall i :: 0 <= i < |c| ==> c[i] > 0.0;
    ReturnBound(c, k);
    assert k == p.slow + 4 ==> Return(c, k) == Bottom(w) / 2.0 - 1.0;
    hide TradedSignal, Return, Growth, Exposure, Bottom;
    IdleFactor(w, Return(c, k));
    RuinFactor(w, Bottom(w));
  }

  lemma {:induction false} CrashRuins(p: Pair, w: real, j: nat)
    requires ValidPair(p) && p.fast < p.slow && w > 0.0 && j < p.slow + 5
    requires NonZero(Crash(p, w))
    ensures Ruins(Crash(p, w), TradedSignal(Crash(p, w), p, 0.0), w, AddOn, j) == if j == p.slow + 4 then 1 else 0
    ensures !WipedOut(Crash(p, w), TradedSignal(Crash(p, w), p, 0.0), w, AddOn, j)
  {
    hide Crash, TradedSignal, Factor;
    if j > 0 {
      CrashRuins(p, w, j - 1);
      CrashFactors(p, w, j);
    }
  }

  /** For all windows with the fast one shorter, every weight and every two costs, the program accepts
      this series and ends on it with more equity at the higher cost. */
  lemma RuinRewardsCost(p: Pair, w: real, low: real, high: real)
    requires ValidPair(p) && p.fast < p.slow && w > 0.0 && Rate(w, low) < Rate(w, high) <= 1.0
    ensures var c := Crash(p, w);
            && |c| >= p.slow + 5 && Positive(c) && NonZero(c)
            && var sig, last := TradedSignal(c, p, 0.0), |c| - 1;
               SimpleBook(c, sig, w, low, AddOn, last).eq[last] < SimpleBook(c, sig, w, high, AddOn, last).eq[last]
  {
    var c := Crash(p, w);
    var sig, last := TradedSignal(c, p, 0.0), |c| - 1;
    CrashFactors(p, w, last);
    CrashRuins(p, w, last);
    CrashSignal(p, w);
    TradedBinary(c, p, 0.0);
    NoSwitches(sig, last - 1);
    assert Charged(sig, last, last) == 1;
    hide *;
    CostlierIsNoRicher(c, sig, w, low, high, AddOn, last, last);
  }
}
