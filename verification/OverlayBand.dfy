/** What the hysteresis band is for: with the other levers off, a wider band never trades more. */
module OverlayBand {
  import opened Common
  import opened Signal
  import opened OverlaySim
  import opened OverlayLaws

  lemma TradedIs(c: seq<real>, p: Pair, band: real, n: nat)
    requires ValidPair(p) && n < |c| && band > 0.0
    ensures TradedSignal(c, p, band)[n] == if Last(Levels(Gaps(c, p, n), band)) then 1.0 else 0.0
    ensures n > 0 ==> Levels(Gaps(c, p, n), band)[..n - 1] == Levels(Gaps(c, p, n - 1), band)
  {
    LevelsLast(Gaps(c, p, n), band);
    hide Gap, Held, Levels, Last;
    if n > 0 {
      assert Gaps(c, p, n)[..n - 1] == Gaps(c, p, n - 1);
    } else {
      NothingHeld(Gaps(c, p, 0), band);
    }
  }

  lemma NothingHeld(gaps: seq<Option<real>>, band: real)
    requires gaps == []
    ensures !Last(Levels(gaps, band))
  {
  }

  // The switches traded through bar n are the flips of the levels before it.
  lemma {:induction false} SwitchesAreFlips(c: seq<real>, p: Pair, band: real, n: nat)
    requires ValidPair(p) && n < |c| && band > 0.0
    ensures Switches(TradedSignal(c, p, band), n) == Flips(Levels(Gaps(c, p, n), band))
  {
    hide TradedSignal, Gaps, Levels;
    if n > 0 {
      SwitchesAreFlips(c, p, band, n - 1);
      TradedIs(c, p, band, n);
      TradedIs(c, p, band, n - 1);
      FlipsStep(Levels(Gaps(c, p, n), band));
      if n == 1 {
        NothingHeld(Gaps(c, p, 0), band);
      }
    }
  }

  lemma RawTradedIs(c: seq<real>, p: Pair, n: nat)
    requires ValidPair(p) && n < |c|
    ensures TradedSignal(c, p, 0.0)[n] == if Last(RawLevels(c, p, n)) then 1.0 else 0.0
    ensures |RawLevels(c, p, n)| == n && (n > 0 ==> RawLevels(c, p, n)[..n - 1] == RawLevels(c, p, n - 1))
    ensures n == 0 ==> !Last(RawLevels(c, p, n)) && Flips(RawLevels(c, p, n)) == 0
  {
    hide FastAbove;
    if n > 0 {
      assert RawLevels(c, p, n)[..n - 1] == RawLevels(c, p, n - 1);
    }
  }

  lemma {:induction false} RawSwitchesAreFlips(c: seq<real>, p: Pair, n: nat)
    requires ValidPair(p) && n < |c|
    ensures Switches(TradedSignal(c, p, 0.0), n) == Flips(RawLevels(c, p, n))
  {
    hide FastAbove, Flips, TradedSignal, RawLevels;
    RawTradedIs(c, p, n);
    if n > 0 {
      RawSwitchesAreFlips(c, p, n - 1);
      RawTradedIs(c, p, n - 1);
      FlipsStep(RawLevels(c, p, n));
    }
  }

  /** A wider band switches no more often; on positive prices nor does any band against none. */
  lemma WiderBandSwitchesLess(c: seq<real>, p: Pair, narrow: real, wide: real, n: nat)
    requires ValidPair(p) && n < |c| && 0.0 <= narrow <= wide && (narrow == 0.0 ==> Positive(c))
    ensures Switches(TradedSignal(c, p, wide), n) <= Switches(TradedSignal(c, p, narrow), n)
  {
    if narrow > 0.0 {
      SwitchesAreFlips(c, p, narrow, n);
      SwitchesAreFlips(c, p, wide, n);
      WiderBandFlipsLess(Gaps(c, p, n), narrow, wide);
    } else if wide > 0.0 {
      RawSwitchesAreFlips(c, p, n);
      SwitchesAreFlips(c, p, wide, n);
      BandFlipsLessThanRaw(c, p, wide, n);
    }
  }

  // With both levers off, the ledger pays for the switches of the signal.
  lemma LedgerTurnover(c: seq<real>, cfg: Cfg, sig: seq<real>, vol: seq<real>, n: nat)
    requires NonZero(c) && |sig| == |vol| == |c| && n < |c| && Binary(sig)
    requires cfg.ddThrottle <= 0.0 && cfg.volTarget <= 0.0
    ensures LedgerAfter(c, cfg, sig, vol, n).turnover == Turnover(cfg.w, Switches(sig, n))
  {
    hide *;
    GeneralRefinesSimple(c, cfg, sig, vol, n);
    CostIsAPower(c, sig, cfg.w, cfg.fee + cfg.slip, cfg.mode, n);
  }

  lemma TurnoverOrder(w: real, n: nat, m: nat)
    requires w >= 0.0 && n <= m
    ensures Turnover(w, n) <= Turnover(w, m)
  {
    if n < m {
      TurnoverOrder(w, n, m - 1);
    }
  }

  /** So with throttle and volatility target off, the simulator turns over no more with a wider band. */
  lemma WiderBandTurnsOverLess(c: seq<real>, cfg: Cfg, vol: seq<real>, wide: real, n: nat)
    requires ValidPair(cfg.p) && NonZero(c) && |vol| == |c| && n < |c| && cfg.w >= 0.0
    requires cfg.ddThrottle <= 0.0 && cfg.volTarget <= 0.0
    requires 0.0 <= cfg.band <= wide && (cfg.band == 0.0 ==> Positive(c))
    ensures var wider := cfg.(band := wide);
            LedgerAfter(c, wider, TradedSignal(c, cfg.p, wide), vol, n).turnover <=
            LedgerAfter(c, cfg, TradedSignal(c, cfg.p, cfg.band), vol, n).turnover
  {
    var few, many := TradedSignal(c, cfg.p, wide), TradedSignal(c, cfg.p, cfg.band);
    TradedBinary(c, cfg.p, wide);
    TradedBinary(c, cfg.p, cfg.band);
    hide *;
    LedgerTurnover(c, cfg.(band := wide), few, vol, n);
    LedgerTurnover(c, cfg, many, vol, n);
    WiderBandSwitchesLess(c, cfg.p, cfg.band, wide, n);
    TurnoverOrder(cfg.w, Switches(few, n), Switches(many, n));
  }
}
