/** What each simulator does to a bar, in numbers: the position it takes, what it pays for it and what the bar
    then earns; and what the throttle does to the position. */
module OverlayBars {
  import opened Common
  import opened Signal
  import opened OverlaySim
  import opened OverlayThrottle

  /******* The numbers *******/

  // What is left of an equity after a change of position is paid for, and what a bar makes of an equity.
  function Net(e: real, delta: real, w: real, cost: real): real {
    e * (1.0 - delta * w * cost)
  }

  function Dealt(delta: real, w: real): real {
    delta * w
  }

  function Earning(e: real, exposure: real, before: real, now: real): real
    requires before != 0.0
  {
    e * (1.0 + exposure * (now / before - 1.0))
  }

  lemma Paid(e: real, delta: real, w: real, cost: real)
    ensures Times(e, 1.0 - Fee(delta, w, cost)) == Net(e, delta, w, cost)
    ensures delta == 0.0 ==> Net(e, delta, w, cost) == e && Dealt(delta, w) == 0.0
    ensures Units(delta, w) == Dealt(delta, w)
  {
    if delta == 0.0 {
      assert delta * w == 0.0;
      assert delta * w * cost == 0.0;
    }
  }

  lemma Distance(x: real, y: real)
    ensures Abs(x - y) == if x < y then y - x else x - y
    ensures Abs(x - y) == 0.0 <==> x == y
  {
  }

  lemma Held(mode: Mode, w: real, pos: real)
    ensures Exposure(mode, w, pos) == (if mode == AddOn then 1.0 else 1.0 - w) + w * pos
  {
  }

  lemma Earned(e: real, exposure: real, c: seq<real>, i: nat)
    requires NonZero(c) && 0 < i < |c|
    ensures Times(e, Growth(exposure, Return(c, i))) == Earning(e, exposure, c[i - 1], c[i])
  {
  }

  // The two writes of a bar.
  lemma Written(eq: seq<real>, i: nat, fee: real, factor: real)
    requires 0 < i < |eq|
    ensures var charged := Charge(eq, i, fee);
            var grown := Grow(charged, i, factor);
            && grown[i - 1] == Times(eq[i - 1], 1.0 - fee) && grown[i] == Times(grown[i - 1], factor)
            && forall j :: 0 <= j < |eq| && j != i && j != i - 1 ==> grown[j] == eq[j]
    ensures var grown := Grow(eq, i, factor);
            && grown[i - 1] == eq[i - 1] && grown[i] == Times(grown[i - 1], factor)
            && forall j :: 0 <= j < |eq| && j != i && j != i - 1 ==> grown[j] == eq[j]
  {
    hide Times;
  }

  /******* A bar of the simple simulator *******/

  /** The bar before pays for a change of position, and the bar earns its return on what is left, at the new
      exposure. */
  lemma SimpleBar(c: seq<real>, sig: seq<real>, w: real, cost: real, mode: Mode, i: nat, delta: real, exposure: real)
    requires NonZero(c) && |sig| == |c| && 0 < i < |c| && (mode == AddOn || mode == ReduceOff)
    requires var pos := SimpleBook(c, sig, w, cost, mode, i - 1).pos;
             delta == if sig[i] < pos then pos - sig[i] else sig[i] - pos
    requires exposure == (if mode == AddOn then 1.0 else 1.0 - w) + w * sig[i]
    ensures var b, b' := SimpleBook(c, sig, w, cost, mode, i - 1), SimpleBook(c, sig, w, cost, mode, i);
            && b'.pos == sig[i] && b'.turnover == b.turnover + Dealt(delta, w)
            && b'.eq[i - 1] == Net(b.eq[i - 1], delta, w, cost)
            && b'.eq[i] == Earning(b'.eq[i - 1], exposure, c[i - 1], c[i])
            && forall j :: 0 <= j < |c| && j != i && j != i - 1 ==> b'.eq[j] == b.eq[j]
  {
    var b, b' := SimpleBook(c, sig, w, cost, mode, i - 1), SimpleBook(c, sig, w, cost, mode, i);
    NoZeroBefore(c, i);
    hide *;
    Distance(sig[i], b.pos);
    Held(mode, w, sig[i]);
    SimpleShape(c, sig, w, cost, mode, i);
    Paid(b.eq[i - 1], delta, w, cost);
    Earned(b'.eq[i - 1], exposure, c, i);
  }

  lemma NoZeroBefore(c: seq<real>, i: nat)
    requires NonZero(c) && 0 < i < |c|
    ensures c[i - 1] != 0.0
  {
  }

  lemma SimpleShape(c: seq<real>, sig: seq<real>, w: real, cost: real, mode: Mode, i: nat)
    requires NonZero(c) && |sig| == |c| && 0 < i < |c|
    ensures var b, b' := SimpleBook(c, sig, w, cost, mode, i - 1), SimpleBook(c, sig, w, cost, mode, i);
            var delta, exposure := Abs(sig[i] - b.pos), Exposure(mode, w, sig[i]);
            && b'.pos == sig[i]
            && b'.turnover == b.turnover + (if sig[i] == b.pos then 0.0 else Units(delta, w))
            && b'.eq[i - 1] == (if sig[i] == b.pos then b.eq[i - 1] else Times(b.eq[i - 1], 1.0 - Fee(delta, w, cost)))
            && b'.eq[i] == Times(b'.eq[i - 1], Growth(exposure, Return(c, i)))
            && forall j :: 0 <= j < |c| && j != i && j != i - 1 ==> b'.eq[j] == b.eq[j]
  {
    hide Abs, Fee, Units, Exposure, Growth, Return, Times;
  }

  /** Before the first bar: equity 1 throughout, no position and no turnover. */
  lemma SimpleStart(c: seq<real>, sig: seq<real>, w: real, cost: real, mode: Mode)
    requires NonZero(c) && |sig| == |c|
    ensures var b := SimpleBook(c, sig, w, cost, mode, 0);
            b.pos == 0.0 && b.turnover == 0.0 && forall j :: 0 <= j < |c| ==> b.eq[j] == 1.0
  {
  }

  /******* A bar of the throttled simulator *******/

  // The risk scale at a drawdown: one up to the threshold, and then falling linearly to the floor, which it
  // reaches at twice the threshold.
  ghost predicate ScaleIs(cfg: Cfg, dd: real, scale: real) {
    if cfg.ddThrottle <= 0.0 || dd <= cfg.ddThrottle then scale == 1.0
    else
      var span := if cfg.ddThrottle < 0.000001 then 0.000001 else cfg.ddThrottle;
      var t := (dd - cfg.ddThrottle) / span;
      scale == if t < 1.0 then (1.0 - t) + t * cfg.ddFloor else cfg.ddFloor
  }

  function Mixed(t: real, floor: real): real {
    (1.0 - t) + t * floor
  }

  lemma MixedEnds(floor: real)
    ensures Mixed(1.0, floor) == floor
  {
  }

  lemma ScaleExactly(cfg: Cfg, dd: real)
    ensures ScaleIs(cfg, dd, RiskScale(cfg, dd))
  {
    if cfg.ddThrottle > 0.0 && dd > cfg.ddThrottle {
      var span := if cfg.ddThrottle < 0.000001 then 0.000001 else cfg.ddThrottle;
      var t := (dd - cfg.ddThrottle) / span;
      assert span == Max(cfg.ddThrottle, 0.000001);
      assert Cut(cfg, dd) == if t < 1.0 then t else 1.0;
      assert RiskScale(cfg, dd) == Mixed(Cut(cfg, dd), cfg.ddFloor);
      hide Cut, RiskScale;
      assert t < 1.0 ==> Mixed(t, cfg.ddFloor) == (1.0 - t) + t * cfg.ddFloor;
      hide Mixed;
      MixedEnds(cfg.ddFloor);
    }
  }

  // What the bar aims for: the signal, times the volatility scale, times the risk scale, within [0, 1].
  ghost predicate AimIs(cfg: Cfg, sig: real, vol: real, scale: real, aim: real) {
    var volScale := if cfg.volTarget <= 0.0 then 1.0 else if vol < 0.25 then 0.25 else if vol > 1.5 then 1.5 else vol;
    aim == Clipped(sig, volScale, scale)
  }

  function Clipped(sig: real, volScale: real, scale: real): real {
    var x := (sig * volScale) * scale;
    if x < 0.0 then 0.0 else if x > 1.0 then 1.0 else x
  }

  lemma TargetIs(sig: real, volScale: real, scale: real)
    ensures Target(sig, volScale, scale) == Clipped(sig, volScale, scale)
  {
    assert Times(Times(sig, volScale), scale) == (sig * volScale) * scale;
  }

  lemma AimExactly(cfg: Cfg, sig: real, vol: real, scale: real)
    ensures AimIs(cfg, sig, vol, scale, Target(sig, VolScale(cfg, vol), scale))
  {
    var volScale := if cfg.volTarget <= 0.0 then 1.0 else if vol < 0.25 then 0.25 else if vol > 1.5 then 1.5 else vol;
    assert VolScale(cfg, vol) == volScale;
    hide VolScale, Target, Clipped;
    TargetIs(sig, volScale, scale);
  }

  // The equity's drawdown from its peak, the bar before included.
  ghost predicate DrawdownIs(equity: real, peak: real, top: real, dd: real) {
    && top == (if peak < equity then equity else peak)
    && dd == if top > 0.0 then 1.0 - equity / top else 0.0
  }

  // What the bar is exposed to: in reduce_off mode an active throttle pulls the rest a little, too.
  ghost predicate ExposureIs(cfg: Cfg, pos: real, scale: real, exposure: real) {
    var base := (if cfg.mode == AddOn then 1.0 else 1.0 - cfg.w) + cfg.w * pos;
    exposure == if cfg.mode == ReduceOff && scale < 1.0 then base * (0.55 + 0.45 * scale) else base
  }

  lemma ExposureExactly(cfg: Cfg, pos: real, scale: real)
    ensures ExposureIs(cfg, pos, scale, ThrottledExposure(cfg, pos, scale))
  {
  }

  lemma Unique(cfg: Cfg, dd: real, sig: real, vol: real, pos: real, scale: real, aim: real, exposure: real)
    requires ScaleIs(cfg, dd, scale) && AimIs(cfg, sig, vol, scale, aim) && ExposureIs(cfg, pos, scale, exposure)
    ensures scale == RiskScale(cfg, dd) && aim == Target(sig, VolScale(cfg, vol), scale)
    ensures exposure == ThrottledExposure(cfg, pos, scale)
  {
    ScaleExactly(cfg, dd);
    AimExactly(cfg, sig, vol, scale);
    ExposureExactly(cfg, pos, scale);
    hide RiskScale, Target, VolScale, ThrottledExposure;
  }

  // A ledger step by the names of its parts.
  lemma StepShape(c: seq<real>, cfg: Cfg, sig: seq<real>, vol: seq<real>, i: nat, top: real, scale: real, aim: real,
      delta: real, exposure: real)
    requires NonZero(c) && |sig| == |vol| == |c| && 0 < i < |c|
    requires var l := LedgerAfter(c, cfg, sig, vol, i - 1);
             && top == Max(l.peak, l.eq[i - 1]) && scale == RiskScale(cfg, Drawdown(l.eq[i - 1], top))
             && aim == Target(sig[i], VolScale(cfg, vol[i]), scale) && delta == Abs(aim - l.pos)
    requires exposure == ThrottledExposure(cfg, LedgerAfter(c, cfg, sig, vol, i).pos, scale)
    ensures var l, l' := LedgerAfter(c, cfg, sig, vol, i - 1), LedgerAfter(c, cfg, sig, vol, i);
            && l'.peak == top
            && l'.pos == (if delta > 0.000000000001 then aim else l.pos)
            && l'.turnover == (if delta > 0.000000000001 then l.turnover + Units(delta, cfg.w) else l.turnover)
            && l'.eq[i - 1] == (if delta > 0.000000000001
                                then Times(l.eq[i - 1], 1.0 - Fee(delta, cfg.w, cfg.fee + cfg.slip)) else l.eq[i - 1])
            && l'.eq[i] == Times(l'.eq[i - 1], Growth(exposure, Return(c, i)))
            && forall j :: 0 <= j < |c| && j != i && j != i - 1 ==> l'.eq[j] == l.eq[j]
  {
    hide Abs, Fee, Units, Growth, Return, Times, ThrottledExposure, Target, VolScale, RiskScale, Drawdown, Max;
  }

  lemma Parts(cfg: Cfg, l: Ledger, equity: real, sig: real, vol: real, pos: real, top: real, dd: real, scale: real,
      aim: real, delta: real, exposure: real)
    requires DrawdownIs(equity, l.peak, top, dd) && ScaleIs(cfg, dd, scale) && AimIs(cfg, sig, vol, scale, aim)
    requires ExposureIs(cfg, pos, scale, exposure) && delta == if aim < l.pos then l.pos - aim else aim - l.pos
    ensures top == Max(l.peak, equity) && scale == RiskScale(cfg, Drawdown(equity, top))
    ensures aim == Target(sig, VolScale(cfg, vol), scale) && delta == Abs(aim - l.pos)
    ensures exposure == ThrottledExposure(cfg, pos, scale)
  {
    assert top == Max(l.peak, equity) && dd == Drawdown(equity, top);
    hide *;
    Unique(cfg, dd, sig, vol, pos, scale, aim, exposure);
    Distance(aim, l.pos);
  }

  /** From the equity's drawdown comes the risk scale, and from it what the bar aims for. If that is further than
      10^-12 from the position, the position moves there and the bar before pays for the distance; otherwise
      nothing is traded. */
  lemma ThrottledTrade(c: seq<real>, cfg: Cfg, sig: seq<real>, vol: seq<real>, i: nat, top: real, dd: real, scale: real,
      aim: real, delta: real)
    requires NonZero(c) && |sig| == |vol| == |c| && 0 < i < |c|
    requires var l := LedgerAfter(c, cfg, sig, vol, i - 1);
             && DrawdownIs(l.eq[i - 1], l.peak, top, dd)
             && ScaleIs(cfg, dd, scale) && AimIs(cfg, sig[i], vol[i], scale, aim)
             && delta == if aim < l.pos then l.pos - aim else aim - l.pos
    ensures var l, l' := LedgerAfter(c, cfg, sig, vol, i - 1), LedgerAfter(c, cfg, sig, vol, i);
            && l'.peak == top
            && (delta <= 0.000000000001 ==>
                  l'.pos == l.pos && l'.turnover == l.turnover && l'.eq[i - 1] == l.eq[i - 1])
            && (delta > 0.000000000001 ==>
                  && l'.pos == aim && l'.turnover == l.turnover + Dealt(delta, cfg.w)
                  && l'.eq[i - 1] == Net(l.eq[i - 1], delta, cfg.w, cfg.fee + cfg.slip))
            && forall j :: 0 <= j < |c| && j != i && j != i - 1 ==> l'.eq[j] == l.eq[j]
  {
    var l, l' := LedgerAfter(c, cfg, sig, vol, i - 1), LedgerAfter(c, cfg, sig, vol, i);
    var exposure := ThrottledExposure(cfg, l'.pos, scale);
    hide *;
    ExposureExactly(cfg, l'.pos, scale);
    Parts(cfg, l, l.eq[i - 1], sig[i], vol[i], l'.pos, top, dd, scale, aim, delta, exposure);
    StepShape(c, cfg, sig, vol, i, top, scale, aim, delta, exposure);
    Paid(l.eq[i - 1], delta, cfg.w, cfg.fee + cfg.slip);
  }

  /** Then the bar earns its return, on what is left, at the exposure of that position. */
  lemma ThrottledEarns(c: seq<real>, cfg: Cfg, sig: seq<real>, vol: seq<real>, i: nat, top: real, dd: real, scale: real,
      exposure: real)
    requires NonZero(c) && |sig| == |vol| == |c| && 0 < i < |c|
    requires var l := LedgerAfter(c, cfg, sig, vol, i - 1);
             DrawdownIs(l.eq[i - 1], l.peak, top, dd) && ScaleIs(cfg, dd, scale)
    requires ExposureIs(cfg, LedgerAfter(c, cfg, sig, vol, i).pos, scale, exposure)
    ensures var l' := LedgerAfter(c, cfg, sig, vol, i);
            l'.eq[i] == Earning(l'.eq[i - 1], exposure, c[i - 1], c[i])
  {
    var l, l' := LedgerAfter(c, cfg, sig, vol, i - 1), LedgerAfter(c, cfg, sig, vol, i);
    var aim := Target(sig[i], VolScale(cfg, vol[i]), scale);
    var delta := if aim < l.pos then l.pos - aim else aim - l.pos;
    NoZeroBefore(c, i);
    hide *;
    AimExactly(cfg, sig[i], vol[i], scale);
    Parts(cfg, l, l.eq[i - 1], sig[i], vol[i], l'.pos, top, dd, scale, aim, delta, exposure);
    StepShape(c, cfg, sig, vol, i, top, scale, aim, delta, exposure);
    Earned(l'.eq[i - 1], exposure, c, i);
  }

  lemma ThrottledStart(c: seq<real>, cfg: Cfg, sig: seq<real>, vol: seq<real>)
    requires NonZero(c) && |sig| == |vol| == |c|
    ensures var l := LedgerAfter(c, cfg, sig, vol, 0);
            l.pos == 0.0 && l.peak == 1.0 && l.turnover == 0.0 && forall j :: 0 <= j < |c| ==> l.eq[j] == 1.0
  {
  }

  /******* What the throttle does to the position *******/

  /** With a signal of 0 or 1 and the volatility target off, the position after a bar is the signal times the
      bar's risk scale, to within 10^-12. */
  lemma PositionFollowsScale(c: seq<real>, cfg: Cfg, sig: seq<real>, vol: seq<real>, i: nat, top: real, dd: real,
      scale: real)
    requires NonZero(c) && |sig| == |vol| == |c| && 0 < i < |c|
    requires cfg.volTarget <= 0.0 && 0.0 <= cfg.ddFloor <= 1.0 && (sig[i] == 0.0 || sig[i] == 1.0)
    requires var l := LedgerAfter(c, cfg, sig, vol, i - 1); DrawdownIs(l.eq[i - 1], l.peak, top, dd)
    requires ScaleIs(cfg, dd, scale)
    ensures var pos := LedgerAfter(c, cfg, sig, vol, i).pos;
            var aim := if sig[i] == 1.0 then scale else 0.0;
            aim - 0.000000000001 <= pos <= aim + 0.000000000001
  {
    var l, l' := LedgerAfter(c, cfg, sig, vol, i - 1), LedgerAfter(c, cfg, sig, vol, i);
    var aim := if sig[i] == 1.0 then scale else 0.0;
    var delta := if aim < l.pos then l.pos - aim else aim - l.pos;
    var exposure := ThrottledExposure(cfg, l'.pos, scale);
    hide *;
    ScaleExactly(cfg, dd);
    RiskScaleRange(cfg, dd);
    ScaleOnce(cfg, dd, scale, RiskScale(cfg, dd));
    AimOfSignal(cfg, sig[i], vol[i], scale);
    ExposureExactly(cfg, l'.pos, scale);
    Parts(cfg, l, l.eq[i - 1], sig[i], vol[i], l'.pos, top, dd, scale, aim, delta, exposure);
    StepShape(c, cfg, sig, vol, i, top, scale, aim, delta, exposure);
  }

  lemma ScaleOnce(cfg: Cfg, dd: real, a: real, b: real)
    requires ScaleIs(cfg, dd, a) && ScaleIs(cfg, dd, b)
    ensures a == b
  {
  }

  lemma AimOfSignal(cfg: Cfg, sig: real, vol: real, scale: real)
    requires cfg.volTarget <= 0.0 && 0.0 <= scale <= 1.0 && (sig == 0.0 || sig == 1.0)
    ensures AimIs(cfg, sig, vol, scale, if sig == 1.0 then scale else 0.0)
  {
    if sig == 1.0 {
      assert (sig * 1.0) * scale == scale;
    } else {
      assert (sig * 1.0) * scale == 0.0;
    }
  }

  /** So from a drawdown of twice the threshold on, the position is at most the floor, and the exposure at most
      what that leaves: in add_on mode 1 + w * floor; in reduce_off mode 1 - w + w * floor, of which the throttle
      leaves 0.55 + 0.45 * floor. */
  lemma DeepDrawdown(c: seq<real>, cfg: Cfg, sig: seq<real>, vol: seq<real>, i: nat, top: real, dd: real,
      exposure: real)
    requires NonZero(c) && |sig| == |vol| == |c| && 0 < i < |c|
    requires cfg.volTarget <= 0.0 && 0.0 <= cfg.ddFloor < 1.0 && (sig[i] == 0.0 || sig[i] == 1.0)
    requires cfg.ddThrottle >= 0.000001 && 0.0 <= cfg.w <= 1.0
    requires var l := LedgerAfter(c, cfg, sig, vol, i - 1); DrawdownIs(l.eq[i - 1], l.peak, top, dd)
    requires dd >= 2.0 * cfg.ddThrottle
    requires ExposureIs(cfg, LedgerAfter(c, cfg, sig, vol, i).pos, cfg.ddFloor, exposure)
    ensures LedgerAfter(c, cfg, sig, vol, i).pos <= cfg.ddFloor + 0.000000000001
    ensures cfg.mode == AddOn ==> exposure <= 1.0 + cfg.w * cfg.ddFloor + 0.000000000001
    ensures cfg.mode == ReduceOff ==>
              exposure <= ((1.0 - cfg.w) + cfg.w * cfg.ddFloor) * (0.55 + 0.45 * cfg.ddFloor) + 0.000000000001
  {
    var pos := LedgerAfter(c, cfg, sig, vol, i).pos;
    FloorAtTwice(cfg, dd);
    hide LedgerAfter, DrawdownIs, ScaleIs, ExposureIs;
    PositionFollowsScale(c, cfg, sig, vol, i, top, dd, cfg.ddFloor);
    ExposureBound(cfg, pos, exposure);
  }

  lemma FloorAtTwice(cfg: Cfg, dd: real)
    requires cfg.ddThrottle >= 0.000001 && dd >= 2.0 * cfg.ddThrottle
    ensures ScaleIs(cfg, dd, cfg.ddFloor)
  {
    QuotientOrder(cfg.ddThrottle, dd - cfg.ddThrottle, cfg.ddThrottle);
  }

  lemma ExposureBound(cfg: Cfg, pos: real, exposure: real)
    requires 0.0 <= cfg.w <= 1.0 && 0.0 <= cfg.ddFloor < 1.0 && pos <= cfg.ddFloor + 0.000000000001
    requires ExposureIs(cfg, pos, cfg.ddFloor, exposure)
    ensures cfg.mode == AddOn ==> exposure <= 1.0 + cfg.w * cfg.ddFloor + 0.000000000001
    ensures cfg.mode == ReduceOff ==>
              exposure <= ((1.0 - cfg.w) + cfg.w * cfg.ddFloor) * (0.55 + 0.45 * cfg.ddFloor) + 0.000000000001
  {
    var base, full := (if cfg.mode == AddOn then 1.0 else 1.0 - cfg.w) + cfg.w * pos, (1.0 - cfg.w) +
        cfg.w * cfg.ddFloor;
    var k := 0.55 + 0.45 * cfg.ddFloor;
    TimesWithin(pos, cfg.ddFloor, cfg.w);
    assert Times(pos, cfg.w) == cfg.w * pos && Times(cfg.ddFloor, cfg.w) == cfg.w * cfg.ddFloor;
    if cfg.mode == ReduceOff {
      assert exposure == Times(base, k) && Times(full, k) == full * k;
      hide Times, ExposureIs;
      TimesWithin(base, full, k);
    }
  }

  lemma TimesWithin(x: real, y: real, k: real)
    requires x <= y + 0.000000000001 && 0.0 <= k <= 1.0
    ensures Times(x, k) <= Times(y, k) + 0.000000000001
  {
    var spare := y + 0.000000000001 - x;
    NonNegative(spare, k);
    assert spare * k == Times(y, k) + 0.000000000001 * k - Times(x, k);
  }
}
