/** What the overlay simulators promise: the general one refines the simple one, and costs enter as a
    power of the number of switches. */
module OverlayLaws {
  import opened Signal
  import opened OverlaySim

  predicate Binary(sig: seq<real>) {
    forall i :: 0 <= i < |sig| ==> sig[i] == 0.0 || sig[i] == 1.0
  }

  lemma TradedBinary(c: seq<real>, p: Pair, band: real)
    requires ValidPair(p)
    ensures Binary(TradedSignal(c, p, band))
  {
    hide Level;
  }

  /******* Refinement *******/

  lemma NeutralStep(c: seq<real>, cfg: Cfg, sig: real, vol: real, i: nat, l: Ledger)
    requires 0 < i < |c| && NonZero(c) && |l.eq| == |c|
    requires cfg.ddThrottle <= 0.0 && cfg.volTarget <= 0.0
    requires (sig == 0.0 || sig == 1.0) && (l.pos == 0.0 || l.pos == 1.0)
    ensures var l', b' := Step(c, cfg, sig, vol, i, l),
        SimpleStep(c, sig, cfg.w, cfg.fee + cfg.slip, cfg.mode, i, Book(l.eq, l.pos, l.turnover));
            Book(l'.eq, l'.pos, l'.turnover) == b'
  {
    assert ScaleAt(cfg, i, l) == 1.0 by { hide Drawdown, Max; }
    NeutralTarget(cfg, sig, vol, l.pos);
    hide Charge, Grow, Growth, Return, Fee, Units, Exposure, ThrottledExposure, ScaleAt, Target, VolScale,
        Rebalanced, Max, Abs;
  }

  lemma NeutralTarget(cfg: Cfg, sig: real, vol: real, pos: real)
    requires (sig == 0.0 || sig == 1.0) && (pos == 0.0 || pos == 1.0) && cfg.volTarget <= 0.0
    ensures Target(sig, VolScale(cfg, vol), 1.0) == sig
    ensures Rebalanced(sig, pos) <==> sig != pos
    ensures ThrottledExposure(cfg, sig, 1.0) == Exposure(cfg.mode, cfg.w, sig)
  {
    TimesOne(sig);
    NeutralExposure(cfg, sig);
    hide ThrottledExposure, Times;
  }

  lemma TimesOne(x: real)
    ensures Times(x, 1.0) == x
  {
  }

  lemma NeutralExposure(cfg: Cfg, pos: real)
    ensures ThrottledExposure(cfg, pos, 1.0) == Exposure(cfg.mode, cfg.w, pos)
  {
    hide Exposure;
  }

  /** With throttle, volatility target and hysteresis off, the general simulator produces the simple
      one's equity, position and turnover after every bar, for every price series and parameter. */
  lemma {:induction false} GeneralRefinesSimple(c: seq<real>, cfg: Cfg, sig: seq<real>, vol: seq<real>, i: nat)
    requires NonZero(c) && |sig| == |vol| == |c| && (i < |c| || i == 0) && Binary(sig)
    requires cfg.ddThrottle <= 0.0 && cfg.volTarget <= 0.0
    ensures var l := LedgerAfter(c, cfg, sig, vol, i);
            && Book(l.eq, l.pos, l.turnover) == SimpleBook(c, sig, cfg.w, cfg.fee + cfg.slip, cfg.mode, i)
            && (l.pos == 0.0 || l.pos == 1.0)
  {
    if i > 0 {
      hide Step, SimpleStep;
      GeneralRefinesSimple(c, cfg, sig, vol, i - 1);
      NeutralStep(c, cfg, sig[i], vol[i], i, LedgerAfter(c, cfg, sig, vol, i - 1));
      SimplePosition(c, sig, cfg.w, cfg.fee + cfg.slip, cfg.mode, i);
    }
  }

  lemma SimplePosition(c: seq<real>, sig: seq<real>, w: real, cost: real, mode: Mode, i: nat)
    requires NonZero(c) && |sig| == |c| && (i < |c| || i == 0)
    ensures SimpleBook(c, sig, w, cost, mode, i).pos == if i == 0 then 0.0 else sig[i]
  {
  }

  lemma NoBandIsRaw(c: seq<real>, p: Pair, band: real)
    requires ValidPair(p) && band <= 0.0
    ensures TradedSignal(c, p, band) == TradedSignal(c, p, 0.0)
  {
    hide FastAbove, Signal.Held;
  }

  /** ... and on the signal the two programs compute for themselves. */
  lemma SimulatorsAgree(c: seq<real>, cfg: Cfg, vol: seq<real>)
    requires ValidPair(cfg.p) && NonZero(c) && |vol| == |c| > 0
    requires cfg.ddThrottle <= 0.0 && cfg.volTarget <= 0.0 && cfg.band <= 0.0
    ensures var l := LedgerAfter(c, cfg, TradedSignal(c, cfg.p, cfg.band), vol, |c| - 1);
            Book(l.eq, l.pos, l.turnover) ==
              SimpleBook(c, TradedSignal(c, cfg.p, 0.0), cfg.w, cfg.fee + cfg.slip, cfg.mode, |c| - 1)
  {
    hide LedgerAfter, SimpleBook, TradedSignal, Binary, NonZero;
    NoBandIsRaw(c, cfg.p, cfg.band);
    TradedBinary(c, cfg.p, cfg.band);
    GeneralRefinesSimple(c, cfg, TradedSignal(c, cfg.p, cfg.band), vol, |c| - 1);
  }

  /******* Costs *******/

  function Power(x: real, n: nat): real {
    if n == 0 then 1.0 else Power(x, n - 1) * x
  }

  // What one switch costs, as a fraction of equity.
  function Rate(w: real, cost: real): real {
    w * cost
  }

  // Position changes in the first i iterations, starting flat.
  function Switches(sig: seq<real>, i: nat): nat
    requires i < |sig| || i == 0
  {
    if i == 0 then 0
    else Switches(sig, i - 1) + if sig[i] != (if i == 1 then 0.0 else sig[i - 1]) then 1 else 0
  }

  // The switches charged to bar j by the end of iteration i: bar j also pays for the switch on bar j + 1.
  function Charged(sig: seq<real>, j: nat, i: nat): nat
    requires j <= i && (i < |sig| || i == 0)
  {
    Switches(sig, if j < i then j + 1 else i)
  }

  lemma TimesAssociates(a: real, b: real, c: real)
    ensures Times(Times(a, b), c) == Times(Times(a, c), b)
  {
    assert a * b * c == a * c * b;
  }

  lemma CostStep(c: seq<real>, target: real, w: real, cost: real, mode: Mode, i: nat, b: Book, free: Book, k: nat)
    requires 0 < i < |c| && NonZero(c) && |b.eq| == |free.eq| == |c|
    requires b.pos == free.pos && (b.pos == 0.0 || b.pos == 1.0) && (target == 0.0 || target == 1.0)
    requires b.eq[i - 1] == Times(free.eq[i - 1], Power(1.0 - Rate(w, cost), k))
    ensures var b', free' := SimpleStep(c, target, w, cost, mode, i, b), SimpleStep(c, target, w, 0.0, mode, i, free);
            var k' := if target != b.pos then k + 1 else k;
            && b'.eq[i - 1] == Times(free'.eq[i - 1], Power(1.0 - Rate(w, cost), k'))
            && b'.eq[i] == Times(free'.eq[i], Power(1.0 - Rate(w, cost), k'))
            && (forall j :: 0 <= j < |c| && j != i - 1 && j != i ==> b'.eq[j] == b.eq[j] && free'.eq[j] == free.eq[j])
            && b'.turnover - b.turnover == (if target != b.pos then w else 0.0)
  {
    var q := 1.0 - Rate(w, cost);
    var factor := Growth(Exposure(mode, w, target), Return(c, i));
    var e, f := b.eq[i - 1], free.eq[i - 1];
    if target != b.pos {
      assert Abs(target - b.pos) == 1.0;
      FeeOfOne(w, cost);
      FeeOfOne(w, 0.0);
      PowerNext(f, q, k);
      assert Times(f, 1.0 - 0.0) == f;
      TimesAssociates(f, Power(q, k + 1), factor);
    } else {
      TimesAssociates(f, Power(q, k), factor);
    }
  }

  lemma FeeOfOne(w: real, cost: real)
    ensures Fee(1.0, w, cost) == Rate(w, cost) && Units(1.0, w) == w && Rate(w, 0.0) == 0.0
  {
  }

  lemma PowerNext(f: real, q: real, k: nat)
    ensures Times(Times(f, Power(q, k)), q) == Times(f, Power(q, k + 1))
  {
    assert Power(q, k + 1) == Power(q, k) * q;
  }

  // Zero-cost equity and the cost factor, bar by bar.
  ghost predicate CostsFactor(c: seq<real>, sig: seq<real>, w: real, cost: real, mode: Mode, i: nat, j: nat)
    requires NonZero(c) && |sig| == |c| && j <= i < |c|
  {
    SimpleBook(c, sig, w, cost, mode, i).eq[j] ==
    Times(SimpleBook(c, sig, w, 0.0, mode, i).eq[j], Power(1.0 - Rate(w, cost), Charged(sig, j, i)))
  }

  ghost predicate CostsFactorThrough(c: seq<real>, sig: seq<real>, w: real, cost: real, mode: Mode, i: nat)
    requires NonZero(c) && |sig| == |c| && i < |c|
  {
    forall j :: 0 <= j <= i ==> CostsFactor(c, sig, w, cost, mode, i, j)
  }

  /** With all costs charged, each bar's equity is its zero-cost equity times (1 - Rate(w, cost)) to the
      number of switches it has paid for, and turnover is w for every switch. */
  lemma {:induction false} CostIsAPower(c: seq<real>, sig: seq<real>, w: real, cost: real, mode: Mode, i: nat)
    requires NonZero(c) && |sig| == |c| && i < |c| && Binary(sig)
    ensures CostsFactorThrough(c, sig, w, cost, mode, i)
    ensures SimpleBook(c, sig, w, cost, mode, i).turnover == Turnover(w, Switches(sig, i))
  {
    if i == 0 {
      TimesOne(1.0);
    } else {
      CostIsAPower(c, sig, w, cost, mode, i - 1);
      SimplePosition(c, sig, w, cost, mode, i - 1);
      SimplePosition(c, sig, w, 0.0, mode, i - 1);
      hide SimpleBook, Switches, CostsFactor;
      assert CostsFactor(c, sig, w, cost, mode, i - 1, i - 1);
      CostStepAt(c, sig, w, cost, mode, i);
      forall j | 0 <= j <= i ensures CostsFactor(c, sig, w, cost, mode, i, j) {
        if j < i - 1 {
          assert CostsFactor(c, sig, w, cost, mode, i - 1, j);
          CostSettled(c, sig, w, cost, mode, i, j);
        }
      }
    }
  }

  // w for every switch, added up.
  function Turnover(w: real, n: nat): real {
    if n == 0 then 0.0 else Turnover(w, n - 1) + w
  }

  // A bar is settled once the next one has been simulated.
  lemma BarSettled(c: seq<real>, sig: seq<real>, w: real, cost: real, mode: Mode, i: nat, j: nat)
    requires NonZero(c) && |sig| == |c| && 0 < i < |c| && j < i - 1
    ensures SimpleBook(c, sig, w, cost, mode, i).eq[j] == SimpleBook(c, sig, w, cost, mode, i - 1).eq[j]
  {
    hide Times, Growth, Return, Fee, Units, Exposure, Abs;
  }

  lemma CostSettled(c: seq<real>, sig: seq<real>, w: real, cost: real, mode: Mode, i: nat, j: nat)
    requires NonZero(c) && |sig| == |c| && 0 < i < |c| && j < i - 1
    requires CostsFactor(c, sig, w, cost, mode, i - 1, j)
    ensures CostsFactor(c, sig, w, cost, mode, i, j)
  {
    BarSettled(c, sig, w, cost, mode, i, j);
    BarSettled(c, sig, w, 0.0, mode, i, j);
    hide SimpleBook, Times, Power, Switches;
  }

  lemma CostStepAt(c: seq<real>, sig: seq<real>, w: real, cost: real, mode: Mode, i: nat)
    requires NonZero(c) && |sig| == |c| && 0 < i < |c| && Binary(sig)
    requires CostsFactor(c, sig, w, cost, mode, i - 1, i - 1)
    requires SimpleBook(c, sig, w, cost, mode, i - 1).pos == SimpleBook(c, sig, w, 0.0, mode, i - 1).pos == if i ==
        1 then 0.0 else sig[i - 1]
    requires SimpleBook(c, sig, w, cost, mode, i - 1).turnover == Turnover(w, Switches(sig, i - 1))
    ensures CostsFactor(c, sig, w, cost, mode, i, i - 1) && CostsFactor(c, sig, w, cost, mode, i, i)
    ensures SimpleBook(c, sig, w, cost, mode, i).turnover == Turnover(w, Switches(sig, i))
  {
    hide Times, Power, SimpleStep;
    CostStep(c, sig[i], w, cost, mode, i, SimpleBook(c, sig, w, cost, mode, i - 1),
      SimpleBook(c, sig, w, 0.0, mode, i - 1), Switches(sig, i - 1));
    var b, free, k := SimpleBook(c, sig, w, cost, mode, i - 1), SimpleBook(c, sig, w, 0.0, mode, i - 1),
        Switches(sig, i - 1);
    var b', free' := SimpleBook(c, sig, w, cost, mode, i), SimpleBook(c, sig, w, 0.0, mode, i);
    assert b' == SimpleStep(c, sig[i], w, cost, mode, i, b);
    assert free' == SimpleStep(c, sig[i], w, 0.0, mode, i, free);
    var k' := if sig[i] != b.pos then k + 1 else k;
    assert k' == Switches(sig, i);
    assert Charged(sig, i - 1, i) == k' == Charged(sig, i, i);
    assert b'.turnover == Turnover(w, k');
    assert b'.eq[i - 1] == Times(free'.eq[i - 1], Power(1.0 - Rate(w, cost), k'));
  }

  lemma {:induction false} TurnoverIs(w: real, n: nat)
    ensures Turnover(w, n) == w * (n as real)
  {
    if n > 0 {
      TurnoverIs(w, n - 1);
      assert w * (n as real) == w * ((n - 1) as real) + w;
    }
  }
}
