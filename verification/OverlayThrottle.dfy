/** Every run of the throttled simulator in reduce_off mode: the bounds it keeps bar by bar, and what
    its exposure may depend on. */
module OverlayThrottle {
  import opened Common
  import opened Signal
  import opened OverlaySim
  import opened OverlayLaws
  import opened OverlayCosts

  predicate Sane(cfg: Cfg) {
    && cfg.mode == ReduceOff
    && 0.0 <= cfg.w <= 1.0
    && 0.0 <= cfg.ddFloor <= 1.0
    && 0.0 <= cfg.fee + cfg.slip
    && Rate(cfg.w, cfg.fee + cfg.slip) < 1.0
  }

  // After i bars: equity positive, the peak over everything before the last bar, a long position at most 1.
  ghost predicate Healthy(l: Ledger, i: nat)
    requires i < |l.eq|
  {
    && l.peak >= 1.0
    && (forall j :: 0 <= j < |l.eq| ==> l.eq[j] > 0.0)
    && (forall j :: 0 <= j < i ==> l.eq[j] <= l.peak)
    && 0.0 <= l.pos <= 1.0
  }

  lemma DrawdownRange(equity: real, peak: real)
    requires 0.0 < equity <= peak
    ensures 0.0 <= Drawdown(equity, peak) < 1.0
  {
    assert (equity / peak) * peak == equity;
    if equity / peak > 1.0 { assert (equity / peak - 1.0) * peak > 0.0; }
    DivisionSign(equity, peak);
  }

  lemma CutRange(cfg: Cfg, dd: real)
    requires cfg.ddThrottle > 0.0 && dd > cfg.ddThrottle
    ensures 0.0 < Cut(cfg, dd) <= 1.0
  {
    DivisionSign(dd - cfg.ddThrottle, Max(cfg.ddThrottle, 0.000001));
  }

  lemma MixRange(t: real, floor: real)
    requires 0.0 <= t <= 1.0 && 0.0 <= floor <= 1.0
    ensures floor <= (1.0 - t) + t * floor <= 1.0
  {
    NonNegative(1.0 - t, 1.0 - floor);
    NonNegative(t, 1.0 - floor);
    assert (1.0 - t) * (1.0 - floor) == (1.0 - t) + t * floor - floor;
    assert t * (1.0 - floor) == t - t * floor;
  }

  lemma RiskScaleRange(cfg: Cfg, dd: real)
    requires 0.0 <= cfg.ddFloor <= 1.0
    ensures cfg.ddFloor <= RiskScale(cfg, dd) <= 1.0
  {
    if cfg.ddThrottle > 0.0 && dd > cfg.ddThrottle {
      CutRange(cfg, dd);
      MixRange(Cut(cfg, dd), cfg.ddFloor);
    }
  }

  lemma CutShape(cfg: Cfg, dd: real, dd': real)
    requires cfg.ddThrottle > 0.0 && cfg.ddThrottle < dd <= dd'
    ensures Cut(cfg, dd) <= Cut(cfg, dd')
    ensures Cut(cfg, dd) == 1.0 <==> dd >= cfg.ddThrottle + Max(cfg.ddThrottle, 0.000001)
  {
    var span, over, over' := Max(cfg.ddThrottle, 0.000001), dd - cfg.ddThrottle, dd' - cfg.ddThrottle;
    QuotientOrder(over, over', span);
    QuotientOrder(over, span, span);
    QuotientOrder(span, over, span);
  }

  lemma QuotientOrder(x: real, y: real, d: real)
    requires d > 0.0
    ensures x <= y ==> x / d <= y / d
    ensures d / d == 1.0
  {
    var p, q := x / d, y / d;
    assert p * d == x && q * d == y;
    assert p > q ==> p * d > q * d;
  }

  /** The risk scale is 1 up to the threshold, never rises with the drawdown, and is at its floor from
      twice the threshold on. */
  lemma RiskScaleShape(cfg: Cfg, dd: real, dd': real)
    requires cfg.ddThrottle > 0.0 && cfg.ddFloor < 1.0 && dd <= dd'
    ensures RiskScale(cfg, dd') <= RiskScale(cfg, dd)
    ensures dd <= cfg.ddThrottle <==> RiskScale(cfg, dd) == 1.0
    ensures dd >= cfg.ddThrottle + Max(cfg.ddThrottle, 0.000001) <==> RiskScale(cfg, dd) == cfg.ddFloor
  {
    if dd' > cfg.ddThrottle {
      CutRange(cfg, dd');
      ScaleOrder(Cut(cfg, dd'), 0.0, cfg.ddFloor);
    }
    if dd > cfg.ddThrottle {
      CutShape(cfg, dd, dd');
      CutRange(cfg, dd);
      ScaleOrder(Cut(cfg, dd'), Cut(cfg, dd), cfg.ddFloor);
      ScaleOrder(Cut(cfg, dd), 0.0, cfg.ddFloor);
      ScaleOrder(1.0, Cut(cfg, dd), cfg.ddFloor);
    }
  }

  // The scale falls as the cut deepens.
  lemma ScaleOrder(t: real, t': real, floor: real)
    requires floor < 1.0
    ensures t > t' ==> (1.0 - t) + t * floor < (1.0 - t') + t' * floor
  {
    if t > t' {
      ProductPositive(t - t', 1.0 - floor);
      assert (t - t') * (1.0 - floor) == (t - t * floor) - (t' - t' * floor);
    }
  }

  lemma ThrottledExposureRange(cfg: Cfg, pos: real, scale: real)
    requires Sane(cfg) && 0.0 <= pos <= 1.0 && 0.0 <= scale <= 1.0
    ensures 0.0 <= ThrottledExposure(cfg, pos, scale) <= 1.0
  {
    ExposureRange(cfg.w, pos);
    hide Exposure;
    if scale < 1.0 {
      ProductRange(Exposure(cfg.mode, cfg.w, pos), 0.55 + 0.45 * scale);
    }
  }

  lemma RateRange(cfg: Cfg)
    requires Sane(cfg)
    ensures 0.0 <= Rate(cfg.w, cfg.fee + cfg.slip) < 1.0
  {
    NonNegative(cfg.w, cfg.fee + cfg.slip);
  }

  lemma FeeIs(delta: real, w: real, cost: real)
    ensures Fee(delta, w, cost) == Rate(w, cost) * delta
  {
    assert delta * w * cost == delta * (w * cost);
  }

  lemma FeeRange(delta: real, cfg: Cfg)
    requires Sane(cfg) && 0.0 <= delta <= 1.0
    ensures 0.0 <= Fee(delta, cfg.w, cfg.fee + cfg.slip) < 1.0
  {
    hide Fee, Rate, Sane;
    RateRange(cfg);
    var rate := Rate(cfg.w, cfg.fee + cfg.slip);
    FeeIs(delta, cfg.w, cfg.fee + cfg.slip);
    ProductRange(rate, delta);
    assert Fee(delta, cfg.w, cfg.fee + cfg.slip) == rate * delta;
  }

  // What bar i trades: the equity's drawdown, the scale it gives, the exposure, and the growth.
  datatype Bar = Bar(dd: real, scale: real, pos: real, exposure: real, factor: real)

  function BarAt(c: seq<real>, cfg: Cfg, sig: real, vol: real, i: nat, l: Ledger): Bar
    requires 0 < i < |c| && NonZero(c) && |l.eq| == |c|
  {
    var scale := ScaleAt(cfg, i, l);
    var pos := Settled(Target(sig, VolScale(cfg, vol), scale), l.pos);
    var exposure := ThrottledExposure(cfg, pos, scale);
    Bar(Drawdown(l.eq[i - 1], Max(l.peak, l.eq[i - 1])), scale, pos, exposure, Growth(exposure, Return(c, i)))
  }

  ghost predicate BarBounded(cfg: Cfg, bar: Bar, r: real) {
    && 0.0 <= bar.dd < 1.0
    && cfg.ddFloor <= bar.scale <= 1.0
    && 0.0 <= bar.pos <= 1.0
    && 0.0 <= bar.exposure <= 1.0
    && bar.factor > 0.0
    && bar.factor >= Min(1.0, 1.0 + r)
  }

  lemma BarIsBounded(c: seq<real>, cfg: Cfg, sig: real, vol: real, i: nat, l: Ledger)
    requires Positive(c) && NonZero(c) && Sane(cfg) && 0 < i < |c| == |l.eq| && Healthy(l, i - 1)
    ensures BarBounded(cfg, BarAt(c, cfg, sig, vol, i, l), Return(c, i))
  {
    var top := Max(l.peak, l.eq[i - 1]);
    DrawdownRange(l.eq[i - 1], top);
    RiskScaleRange(cfg, Drawdown(l.eq[i - 1], top));
    hide Drawdown, RiskScale, Times, Abs;
    var bar := BarAt(c, cfg, sig, vol, i, l);
    assert 0.0 <= Target(sig, VolScale(cfg, vol), bar.scale) <= 1.0;
    hide Target, VolScale, Rebalanced;
    assert 0.0 <= bar.pos <= 1.0;
    hide Settled, Max;
    ThrottledExposureRange(cfg, bar.pos, bar.scale);
    hide ThrottledExposure;
    ReturnBound(c, i);
    GrowthBounds(bar.exposure, Return(c, i));
  }

  lemma ChargedEquity(e: real, fee: real)
    requires e > 0.0 && 0.0 <= fee < 1.0
    ensures 0.0 < Times(e, 1.0 - fee) <= e
  {
    ProductPositive(e, 1.0 - fee);
    ProductRange(e, 1.0 - fee);
    assert Times(e, 1.0 - fee) == e * (1.0 - fee);
  }

  lemma GrowHealthy(eq: seq<real>, i: nat, factor: real)
    requires 0 < i < |eq| && factor > 0.0 && forall j :: 0 <= j < |eq| ==> eq[j] > 0.0
    ensures forall j :: 0 <= j < |eq| ==> Grow(eq, i, factor)[j] > 0.0
    ensures forall j :: 0 <= j < i ==> Grow(eq, i, factor)[j] == eq[j]
  {
    assert Times(eq[i - 1], factor) > 0.0;
  }

  lemma ChargeHealthy(eq: seq<real>, i: nat, fee: real)
    requires 0 < i < |eq| && 0.0 <= fee < 1.0 && forall j :: 0 <= j < |eq| ==> eq[j] > 0.0
    ensures forall j :: 0 <= j < |eq| ==> 0.0 < Charge(eq, i, fee)[j] <= eq[j]
  {
    ChargedEquity(eq[i - 1], fee);
  }

  lemma StepHealthy(c: seq<real>, cfg: Cfg, sig: real, vol: real, i: nat, l: Ledger)
    requires Positive(c) && NonZero(c) && Sane(cfg) && 0 < i < |c| == |l.eq| && Healthy(l, i - 1)
    ensures Healthy(Step(c, cfg, sig, vol, i, l), i)
  {
    var bar := BarAt(c, cfg, sig, vol, i, l);
    BarIsBounded(c, cfg, sig, vol, i, l);
    var target := Target(sig, VolScale(cfg, vol), bar.scale);
    if Rebalanced(target, l.pos) {
      assert bar.pos == target;
      var fee := Fee(Abs(target - l.pos), cfg.w, cfg.fee + cfg.slip);
      FeeRange(Abs(target - l.pos), cfg);
      hide Fee, Charge, Grow, Growth, Return, ThrottledExposure, Target, VolScale, Rebalanced, ScaleAt, Units, Sane;
      ChargeHealthy(l.eq, i, fee);
      GrowHealthy(Charge(l.eq, i, fee), i, bar.factor);
    } else {
      hide Fee, Charge, Grow, Growth, Return, ThrottledExposure, Target, VolScale, Rebalanced, ScaleAt, Units, Sane;
      GrowHealthy(l.eq, i, bar.factor);
    }
  }

  /** In every throttled run over positive prices, at every bar: equity is positive, the peak bounds
      all earlier equity, the position is in [0, 1] ... */
  lemma {:induction false} RunHealthy(c: seq<real>, cfg: Cfg, sig: seq<real>, vol: seq<real>, i: nat)
    requires Positive(c) && NonZero(c) && Sane(cfg) && |sig| == |vol| == |c| && i < |c|
    ensures Healthy(LedgerAfter(c, cfg, sig, vol, i), i)
  {
    if i > 0 {
      RunHealthy(c, cfg, sig, vol, i - 1);
      StepHealthy(c, cfg, sig[i], vol[i], i, LedgerAfter(c, cfg, sig, vol, i - 1));
    }
  }

  /** ... drawdown is in [0, 1), the risk scale in [floor, 1], the exposure in [0, 1], and no bar
      loses a larger share of equity than holding the asset would, nor any at all on a rising bar. */
  lemma RunBounded(c: seq<real>, cfg: Cfg, sig: seq<real>, vol: seq<real>, i: nat)
    requires Positive(c) && NonZero(c) && Sane(cfg) && |sig| == |vol| == |c| && 0 < i < |c|
    ensures BarBounded(cfg, BarAt(c, cfg, sig[i], vol[i], i, LedgerAfter(c, cfg, sig, vol, i - 1)), Return(c, i))
  {
    hide LedgerAfter, Healthy, Sane, BarAt, BarBounded;
    RunHealthy(c, cfg, sig, vol, i - 1);
    BarIsBounded(c, cfg, sig[i], vol[i], i, LedgerAfter(c, cfg, sig, vol, i - 1));
  }

  /******* Nothing looks ahead *******/

  predicate AgreeBefore(c: seq<real>, d: seq<real>, i: nat) {
    i <= |c| == |d| && forall j :: 0 <= j < i ==> c[j] == d[j]
  }

  lemma {:induction false} SumAgrees(c: seq<real>, d: seq<real>, lo: nat, hi: nat)
    requires lo <= hi && AgreeBefore(c, d, hi)
    ensures Sum(c, lo, hi) == Sum(d, lo, hi)
  {
    if lo < hi {
      SumAgrees(c, d, lo, hi - 1);
    }
  }

  lemma GapAgrees(c: seq<real>, d: seq<real>, p: Pair, i: nat)
    requires ValidPair(p) && i < |c| && AgreeBefore(c, d, i + 1)
    ensures Gap(c, p, i) == Gap(d, p, i) && FastAbove(c, p, i) == FastAbove(d, p, i)
  {
    if Warm(p, i) {
      SumAgrees(c, d, i + 1 - p.fast, i + 1);
      SumAgrees(c, d, i + 1 - p.slow, i + 1);
    }
  }

  lemma TradedAgrees(c: seq<real>, d: seq<real>, p: Pair, band: real, i: nat)
    requires ValidPair(p) && i < |c| && AgreeBefore(c, d, i)
    ensures Traded(c, p, band, i) == Traded(d, p, band, i)
  {
    if i > 0 {
      GapAgrees(c, d, p, i - 1);
      forall j | 0 <= j < i ensures Gap(c, p, j) == Gap(d, p, j) {
        GapAgrees(c, d, p, j);
      }
      hide Gap, FastAbove, Held;
      assert Gaps(c, p, i) == Gaps(d, p, i);
    }
  }

  // Two runs on closes that agree before bar i have the same ledger after bar i - 1.
  lemma {:induction false} LedgerAgrees(c: seq<real>, d: seq<real>, cfg: Cfg, vol: seq<real>, vol': seq<real>, i: nat)
    requires ValidPair(cfg.p) && NonZero(c) && NonZero(d) && cfg.volTarget <= 0.0
    requires |c| == |d| == |vol| == |vol'| && i < |c| && AgreeBefore(c, d, i + 1)
    ensures LedgerAfter(c, cfg, TradedSignal(c, cfg.p, cfg.band), vol, i) ==
        LedgerAfter(d, cfg, TradedSignal(d, cfg.p, cfg.band), vol', i)
  {
    if i > 0 {
      hide Step, Traded, Return;
      LedgerAgrees(c, d, cfg, vol, vol', i - 1);
      TradedAgrees(c, d, cfg.p, cfg.band, i);
      var l := LedgerAfter(c, cfg, TradedSignal(c, cfg.p, cfg.band), vol, i - 1);
      StepAgrees(c, d, cfg, Traded(c, cfg.p, cfg.band, i), vol[i], vol'[i], i, l);
    }
  }

  lemma VolOff(cfg: Cfg, vol: real)
    requires cfg.volTarget <= 0.0
    ensures VolScale(cfg, vol) == 1.0
  {
  }

  lemma StepAgrees(c: seq<real>, d: seq<real>, cfg: Cfg, sig: real, vol: real, vol': real, i: nat, l: Ledger)
    requires 0 < i < |c| == |d| == |l.eq| && NonZero(c) && NonZero(d) && cfg.volTarget <= 0.0
        && AgreeBefore(c, d, i + 1)
    ensures Step(c, cfg, sig, vol, i, l) == Step(d, cfg, sig, vol', i, l)
  {
    assert Return(c, i) == Return(d, i);
    VolOff(cfg, vol);
    VolOff(cfg, vol');
    hide Growth, Return, ScaleAt, ThrottledExposure, Fee, Target, Charge, Grow, Units, Abs, Max, Settled, Rebalanced,
        VolScale;
  }

  lemma BarAgrees(c: seq<real>, d: seq<real>, cfg: Cfg, sig: real, vol: real, vol': real, i: nat, l: Ledger)
    requires 0 < i < |c| == |d| == |l.eq| && NonZero(c) && NonZero(d) && cfg.volTarget <= 0.0
    ensures var bar, bar' := BarAt(c, cfg, sig, vol, i, l), BarAt(d, cfg, sig, vol', i, l);
            bar.dd == bar'.dd && bar.scale == bar'.scale && bar.pos == bar'.pos && bar.exposure == bar'.exposure
  {
    VolOff(cfg, vol);
    VolOff(cfg, vol');
    hide Growth, Return, ScaleAt, ThrottledExposure, Target, Drawdown, Max, Settled, VolScale;
  }

  /** With the volatility lever off, the position and exposure traded on bar i are decided by the
      closes before bar i: changing bar i or any later bar changes neither. */
  lemma ExposureIsCausal(c: seq<real>, d: seq<real>, cfg: Cfg, vol: seq<real>, vol': seq<real>, i: nat)
    requires ValidPair(cfg.p) && NonZero(c) && NonZero(d) && cfg.volTarget <= 0.0
    requires |c| == |d| == |vol| == |vol'| && 0 < i < |c| && AgreeBefore(c, d, i)
    ensures var sig, sig' := TradedSignal(c, cfg.p, cfg.band), TradedSignal(d, cfg.p, cfg.band);
            var bar := BarAt(c, cfg, sig[i], vol[i], i, LedgerAfter(c, cfg, sig, vol, i - 1));
            var bar' := BarAt(d, cfg, sig'[i], vol'[i], i, LedgerAfter(d, cfg, sig', vol', i - 1));
            bar.dd == bar'.dd && bar.scale == bar'.scale && bar.pos == bar'.pos && bar.exposure == bar'.exposure
  {
    hide LedgerAfter, Traded, BarAt, AgreeBefore, NonZero;
    AgreeLess(c, d, i);
    LedgerAgrees(c, d, cfg, vol, vol', i - 1);
    TradedAgrees(c, d, cfg.p, cfg.band, i);
    var l := LedgerAfter(c, cfg, TradedSignal(c, cfg.p, cfg.band), vol, i - 1);
    BarAgrees(c, d, cfg, Traded(c, cfg.p, cfg.band, i), vol[i], vol'[i], i, l);
  }

  lemma AgreeLess(c: seq<real>, d: seq<real>, i: nat)
    requires 0 < i && AgreeBefore(c, d, i)
    ensures AgreeBefore(c, d, i - 1 + 1)
  {
  }
}
