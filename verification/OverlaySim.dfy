/** The two overlay simulators, each as the step its loop performs on the equity array, and the
    loops themselves, which charge costs by rewriting the previous bar's equity in place. */
module OverlaySim {
  import opened Common
  import opened Signal

  datatype Mode = AddOn | ReduceOff | Other

  datatype Refusal = UnknownMode | TooFewBars

  predicate NonZero(c: seq<real>) {
    forall i :: 0 <= i < |c| ==> c[i] != 0.0
  }

  function Return(c: seq<real>, i: nat): real
    requires 0 < i < |c| && NonZero(c)
  {
    c[i] / c[i - 1] - 1.0
  }

  function Ones(n: nat): (s: seq<real>)
    ensures |s| == n && forall i :: 0 <= i < n ==> s[i] == 1.0
  {
    seq(n, _ => 1.0)
  }

  function Exposure(mode: Mode, w: real, pos: real): real {
    if mode == AddOn then 1.0 + w * pos else (1.0 - w) + w * pos
  }

  function Times(x: real, y: real): real {
    x * y
  }

  // Both loops write the array twice a bar: a rebalancing cost comes off the previous bar's equity ...
  function Charge(eq: seq<real>, i: nat, fee: real): (eq': seq<real>)
    requires 0 < i < |eq|
    ensures |eq'| == |eq|
  {
    eq[i - 1 := Times(eq[i - 1], 1.0 - fee)]
  }

  // ... and then the bar's return accrues on what is left.
  function Grow(eq: seq<real>, i: nat, factor: real): (eq': seq<real>)
    requires 0 < i < |eq|
    ensures |eq'| == |eq|
  {
    eq[i := Times(eq[i - 1], factor)]
  }

  method ChargeInPlace(eq: array<real>, i: nat, fee: real)
    requires 0 < i < eq.Length
    modifies eq
    ensures eq[..] == Charge(old(eq[..]), i, fee)
  {
    hide Times;
    eq[i - 1] := Times(eq[i - 1], 1.0 - fee);
  }

  method GrowInPlace(eq: array<real>, i: nat, factor: real)
    requires 0 < i < eq.Length
    modifies eq
    ensures eq[..] == Grow(old(eq[..]), i, factor)
  {
    hide Times;
    eq[i] := Times(eq[i - 1], factor);
  }

  function Fee(delta: real, w: real, cost: real): real {
    delta * w * cost
  }

  function Units(delta: real, w: real): real {
    delta * w
  }

  function Growth(exposure: real, r: real): real {
    1.0 + exposure * r
  }

  /******* The simple simulator *******/

  datatype Book = Book(eq: seq<real>, pos: real, turnover: real)

  function SimpleStep(c: seq<real>, target: real, w: real, cost: real, mode: Mode, i: nat, b: Book): (b': Book)
    requires 0 < i < |c| && NonZero(c) && |b.eq| == |c|
    ensures |b'.eq| == |c|
  {
    var delta := Abs(target - b.pos);
    var factor := Growth(Exposure(mode, w, target), Return(c, i));
    if target != b.pos then Book(Grow(Charge(b.eq, i, Fee(delta, w, cost)), i, factor), target, b.turnover +
      Units(delta, w))
    else Book(Grow(b.eq, i, factor), target, b.turnover)
  }

  // After the first i iterations of the loop, on the traded signal sig.
  function SimpleBook(c: seq<real>, sig: seq<real>, w: real, cost: real, mode: Mode, i: nat): (b: Book)
    requires NonZero(c) && |sig| == |c| && (i < |c| || i == 0)
    ensures |b.eq| == |c|
  {
    if i == 0 then Book(Ones(|c|), 0.0, 0.0)
    else SimpleStep(c, sig[i], w, cost, mode, i, SimpleBook(c, sig, w, cost, mode, i - 1))
  }

  function TradedSignal(c: seq<real>, p: Pair, band: real): (sig: seq<real>)
    requires ValidPair(p)
    ensures |sig| == |c| && forall i :: 0 <= i < |c| ==> sig[i] == Traded(c, p, band, i)
  {
    seq(|c|, i requires 0 <= i < |c| => Traded(c, p, band, i))
  }

  method SimpleLoop(c: seq<real>, sig: seq<real>, w: real, cost: real, mode: Mode)
      returns (eq: array<real>, pos: real, turnover: real)
    requires NonZero(c) && |sig| == |c| > 0
    ensures fresh(eq) && Book(eq[..], pos, turnover) == SimpleBook(c, sig, w, cost, mode, |c| - 1)
  {
    hide Charge, Grow, Exposure, Abs, Fee, Units, Growth, Return;
    eq, pos, turnover := new real[|c|](_ => 1.0), 0.0, 0.0;
    assert eq[..] == Ones(|c|);
    for i := 1 to |c|
      invariant fresh(eq) && eq.Length == |c|
      invariant Book(eq[..], pos, turnover) == SimpleBook(c, sig, w, cost, mode, i - 1)
    {
      var target := sig[i];
      if target != pos {
        var delta := Abs(target - pos);
        ChargeInPlace(eq, i, Fee(delta, w, cost));
        turnover := turnover + Units(delta, w);
        pos := target;
      }
      GrowInPlace(eq, i, Growth(Exposure(mode, w, pos), Return(c, i)));
    }
  }

  method SimulateBetaOverlay(c: seq<real>, p: Pair, w: real, fee: real, slip: real, mode: Mode)
    returns (error: Option<Refusal>, eq: array<real>, pos: real, turnover: real)
    requires ValidPair(p) && NonZero(c)
    ensures error == if mode == Other then Some(UnknownMode) else if |c| < p.slow + 5 then Some(TooFewBars) else None
    ensures error == None ==>
              fresh(eq) && Book(eq[..], pos, turnover) ==
                SimpleBook(c, TradedSignal(c, p, 0.0), w, fee + slip, mode, |c| - 1)
  {
    eq, pos, turnover := new real[0], 0.0, 0.0;
    if mode == Other { return Some(UnknownMode), eq, pos, turnover; }
    if |c| < p.slow + 5 { return Some(TooFewBars), eq, pos, turnover; }
    var sig := MaSignal(c, p, 0.0);
    assert sig[..] == TradedSignal(c, p, 0.0);
    hide TradedSignal, SimpleBook;
    eq, pos, turnover := SimpleLoop(c, sig[..], w, fee + slip, mode);
    error := None;
  }

  /******* The general simulator: drawdown throttle, volatility scale and hysteresis *******/

  datatype Cfg = Cfg(mode: Mode, w: real, p: Pair, fee: real, slip: real, ddThrottle: real, ddFloor: real,
    volTarget: real, band: real)

  // The peak is the highest equity seen so far, taken before the bar's own cost.
  datatype Ledger = Ledger(eq: seq<real>, peak: real, pos: real, turnover: real)

  function Max(x: real, y: real): real {
    if x < y then y else x
  }

  function Min(x: real, y: real): real {
    if x < y then x else y
  }

  function Drawdown(equity: real, peak: real): real {
    if peak > 0.0 then 1.0 - equity / peak else 0.0
  }

  function Cut(cfg: Cfg, dd: real): real {
    Min(1.0, (dd - cfg.ddThrottle) / Max(cfg.ddThrottle, 0.000001))
  }

  function RiskScale(cfg: Cfg, dd: real): real {
    if cfg.ddThrottle > 0.0 && dd > cfg.ddThrottle then (1.0 - Cut(cfg, dd)) + Cut(cfg, dd) * cfg.ddFloor else 1.0
  }

  function Target(sig: real, volScale: real, riskScale: real): real {
    Min(Max(Times(Times(sig, volScale), riskScale), 0.0), 1.0)
  }

  // When the volatility lever is on, vol is the ratio of its target to the rolling volatility.
  function VolScale(cfg: Cfg, vol: real): real {
    if cfg.volTarget > 0.0 then Min(Max(vol, 0.25), 1.5) else 1.0
  }

  function Rebalanced(target: real, pos: real): bool {
    Abs(target - pos) > 0.000000000001
  }

  function Settled(target: real, pos: real): real {
    if Rebalanced(target, pos) then target else pos
  }

  // In reduce_off mode the throttle also pulls the beta sleeve a little.
  function ThrottledExposure(cfg: Cfg, pos: real, riskScale: real): real {
    if cfg.mode == ReduceOff && riskScale < 1.0 then Exposure(cfg.mode, cfg.w, pos) * (0.55 + 0.45 * riskScale)
    else Exposure(cfg.mode, cfg.w, pos)
  }

  function ScaleAt(cfg: Cfg, i: nat, l: Ledger): real
    requires 0 < i < |l.eq|
  {
    RiskScale(cfg, Drawdown(l.eq[i - 1], Max(l.peak, l.eq[i - 1])))
  }

  function Step(c: seq<real>, cfg: Cfg, sig: real, vol: real, i: nat, l: Ledger): (l': Ledger)
    requires 0 < i < |c| && NonZero(c) && |l.eq| == |c|
    ensures |l'.eq| == |c|
  {
    var scale := ScaleAt(cfg, i, l);
    var target := Target(sig, VolScale(cfg, vol), scale);
    var pos := Settled(target, l.pos);
    var factor := Growth(ThrottledExposure(cfg, pos, scale), Return(c, i));
    var peak := Max(l.peak, l.eq[i - 1]);
    if Rebalanced(target, l.pos) then
      Ledger(Grow(Charge(l.eq, i, Fee(Abs(target - l.pos), cfg.w, cfg.fee + cfg.slip)), i, factor),
             peak, pos, l.turnover + Units(Abs(target - l.pos), cfg.w))
    else Ledger(Grow(l.eq, i, factor), peak, pos, l.turnover)
  }

  function LedgerAfter(c: seq<real>, cfg: Cfg, sig: seq<real>, vol: seq<real>, i: nat): (l: Ledger)
    requires NonZero(c) && |sig| == |vol| == |c| && (i < |c| || i == 0)
    ensures |l.eq| == |c|
  {
    if i == 0 then Ledger(Ones(|c|), 1.0, 0.0, 0.0)
    else Step(c, cfg, sig[i], vol[i], i, LedgerAfter(c, cfg, sig, vol, i - 1))
  }

  method GeneralLoop(c: seq<real>, cfg: Cfg, sig: seq<real>, vol: seq<real>)
    returns (eq: array<real>, ghost peak: real, pos: real, turnover: real)
    requires NonZero(c) && |sig| == |vol| == |c| > 0
    ensures fresh(eq) && Ledger(eq[..], peak, pos, turnover) == LedgerAfter(c, cfg, sig, vol, |c| - 1)
  {
    hide Charge, Grow, Exposure, ThrottledExposure, Abs, Fee, Units, Growth, Return, Max, Min, RiskScale, Target,
        Drawdown, VolScale;
    eq, pos, turnover := new real[|c|](_ => 1.0), 0.0, 0.0;
    var top := 1.0;
    assert eq[..] == Ones(|c|);
    for i := 1 to |c|
      invariant fresh(eq) && eq.Length == |c|
      invariant Ledger(eq[..], top, pos, turnover) == LedgerAfter(c, cfg, sig, vol, i - 1)
    {
      top := Max(top, eq[i - 1]);
      var scale := RiskScale(cfg, Drawdown(eq[i - 1], top));
      var target := Target(sig[i], VolScale(cfg, vol[i]), scale);
      if Rebalanced(target, pos) {
        var delta := Abs(target - pos);
        ChargeInPlace(eq, i, Fee(delta, cfg.w, cfg.fee + cfg.slip));
        turnover := turnover + Units(delta, cfg.w);
        pos := target;
      }
      GrowInPlace(eq, i, Growth(ThrottledExposure(cfg, pos, scale), Return(c, i)));
    }
    peak := top;
  }

  method Simulate(c: seq<real>, cfg: Cfg, vol: seq<real>)
    returns (error: Option<Refusal>, eq: array<real>, ghost peak: real, pos: real, turnover: real)
    requires ValidPair(cfg.p) && NonZero(c) && |vol| == |c|
    ensures error == if |c| < cfg.p.slow + 5 then Some(TooFewBars) else None
    ensures error == None ==>
              fresh(eq) && Ledger(eq[..], peak, pos, turnover) ==
                LedgerAfter(c, cfg, TradedSignal(c, cfg.p, cfg.band), vol, |c| - 1)
  {
    eq, peak, pos, turnover := new real[0], 1.0, 0.0, 0.0;
    if |c| < cfg.p.slow + 5 { return Some(TooFewBars), eq, peak, pos, turnover; }
    var sig := MaSignal(c, cfg.p, cfg.band);
    assert sig[..] == TradedSignal(c, cfg.p, cfg.band);
    hide TradedSignal, LedgerAfter;
    eq, peak, pos, turnover := GeneralLoop(c, cfg, sig[..], vol);
    error := None;
  }
}
