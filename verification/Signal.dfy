/** The trend signal of the overlay: a fast average against a slow one, raw or through a
    hysteresis band, and how often it can change its mind. */
module Signal {
  import opened Common

  /******* Moving averages *******/

  function Sum(c: seq<real>, lo: nat, hi: nat): real
    requires lo <= hi <= |c|
  {
    if lo == hi then 0.0 else Sum(c, lo, hi - 1) + c[hi - 1]
  }

  // The mean of the last k closes at bar i; rolling windows are undefined before k bars.
  function Mean(c: seq<real>, k: nat, i: nat): real
    requires 0 < k <= i + 1 <= |c|
  {
    Sum(c, i + 1 - k, i + 1) / (k as real)
  }

  datatype Pair = Pair(fast: nat, slow: nat)

  predicate ValidPair(p: Pair) {
    0 < p.fast && 0 < p.slow
  }

  predicate Warm(p: Pair, i: nat) {
    p.fast <= i + 1 && p.slow <= i + 1
  }

  predicate FastAbove(c: seq<real>, p: Pair, i: nat)
    requires ValidPair(p) && i < |c|
  {
    Warm(p, i) && Mean(c, p.fast, i) > Mean(c, p.slow, i)
  }

  // The relative distance of the averages; undefined (NaN) while warming up or at a zero slow average.
  function Gap(c: seq<real>, p: Pair, i: nat): Option<real>
    requires ValidPair(p) && i < |c|
  {
    if !Warm(p, i) || Mean(c, p.slow, i) == 0.0 then None
    else Some((Mean(c, p.fast, i) - Mean(c, p.slow, i)) / Mean(c, p.slow, i))
  }

  /******* The hysteresis automaton *******/

  function Next(state: bool, gap: Option<real>, band: real): bool {
    match gap
    case None => state
    case Some(g) => if !state && g > band then true else if state && g < -band then false else state
  }

  function Held(gaps: seq<Option<real>>, band: real): bool {
    if gaps == [] then false else Next(Held(gaps[..|gaps| - 1], band), gaps[|gaps| - 1], band)
  }

  function Gaps(c: seq<real>, p: Pair, n: nat): (gaps: seq<Option<real>>)
    requires ValidPair(p) && n <= |c|
    ensures |gaps| == n && forall i :: 0 <= i < n ==> gaps[i] == Gap(c, p, i)
  {
    seq(n, i requires 0 <= i < n => Gap(c, p, i))
  }

  // Whether the overlay is wanted at the close of bar i.
  predicate Level(c: seq<real>, p: Pair, band: real, i: nat)
    requires ValidPair(p) && i < |c|
  {
    if band <= 0.0 then FastAbove(c, p, i) else Held(Gaps(c, p, i + 1), band)
  }

  // The position traded on bar i: the previous bar's level, so that nothing is traded on its own close.
  function Traded(c: seq<real>, p: Pair, band: real, i: nat): real
    requires ValidPair(p) && i < |c|
  {
    if i > 0 && Level(c, p, band, i - 1) then 1.0 else 0.0
  }

  // The automaton's loop over the bars.
  method HeldSignal(c: seq<real>, p: Pair, band: real) returns (sig: array<real>)
    requires ValidPair(p)
    ensures fresh(sig) && sig.Length == |c|
    ensures forall i :: 0 <= i < |c| ==> sig[i] == if Held(Gaps(c, p, i + 1), band) then 1.0 else 0.0
  {
    sig := new real[|c|](_ => 0.0);
    var state := 0.0;
    for i := 0 to |c|
      invariant state == if Held(Gaps(c, p, i), band) then 1.0 else 0.0
      invariant forall k :: 0 <= k < i ==> sig[k] == if Held(Gaps(c, p, k + 1), band) then 1.0 else 0.0
    {
      HeldNext(c, p, band, i);
      var gap := Gap(c, p, i);
      if gap.Some? {
        if state < 0.5 && gap.value > band {
          state := 1.0;
        } else if state >= 0.5 && gap.value < -band {
          state := 0.0;
        }
      }
      hide Held, Gaps, Gap;
      sig[i] := state;
    }
  }

  lemma HeldNext(c: seq<real>, p: Pair, band: real, i: nat)
    requires ValidPair(p) && i < |c|
    ensures Held(Gaps(c, p, i + 1), band) == Next(Held(Gaps(c, p, i), band), Gap(c, p, i), band)
  {
    assert Gaps(c, p, i + 1)[..i] == Gaps(c, p, i);
  }

  method MaSignal(c: seq<real>, p: Pair, band: real) returns (out: array<real>)
    requires ValidPair(p)
    ensures fresh(out) && out.Length == |c|
    ensures forall i :: 0 <= i < |c| ==> out[i] == Traded(c, p, band, i)
  {
    hide Held, FastAbove;
    if band <= 0.0 {
      out := new real[|c|](i requires 0 <= i < |c| => if i > 0 && FastAbove(c, p, i - 1) then 1.0 else 0.0);
      return;
    }
    var sig := HeldSignal(c, p, band);
    out := new real[|c|](_ => 0.0);
    forall i | 1 <= i < |c| {
      out[i] := sig[i - 1];
    }
  }

  /******* What the signal is, bar by bar *******/

  function Total(s: seq<real>): real {
    if s == [] then 0.0 else s[0] + Total(s[1..])
  }

  lemma {:induction false} TotalNext(s: seq<real>, x: real)
    ensures Total(s + [x]) == Total(s) + x
  {
    if s == [] {
      assert s + [x] == [x];
    } else {
      assert (s + [x])[1..] == s[1..] + [x];
      TotalNext(s[1..], x);
    }
  }

  lemma {:induction false} SumIsTotal(c: seq<real>, lo: nat, hi: nat)
    requires lo <= hi <= |c|
    ensures Sum(c, lo, hi) == Total(c[lo..hi])
  {
    if lo < hi {
      SumIsTotal(c, lo, hi - 1);
      assert c[lo..hi] == c[lo..hi - 1] + [c[hi - 1]];
      TotalNext(c[lo..hi - 1], c[hi - 1]);
    }
  }

  /** The rolling mean at a bar is that of the last k closes, the bar's own among them. */
  lemma MeanIs(c: seq<real>, k: nat, i: nat)
    requires 0 < k <= i + 1 <= |c|
    ensures Mean(c, k, i) == Total(c[i + 1 - k..i + 1]) / (k as real)
  {
    SumIsTotal(c, i + 1 - k, i + 1);
  }

  // The last entry: a gap above the band, and none since below its negative.
  ghost predicate EnteredAt(gaps: seq<Option<real>>, band: real, k: int) {
    && 0 <= k < |gaps| && gaps[k].Some? && gaps[k].value > band
    && forall j :: k < j < |gaps| && gaps[j].Some? ==> gaps[j].value >= -band
  }

  /** The overlay is held after some gaps exactly when one was above the band and none since has been below
      its negative. */
  lemma {:induction false} HeldExactly(gaps: seq<Option<real>>, band: real)
    requires band > 0.0
    ensures Held(gaps, band) <==>
            exists k :: 0 <= k < |gaps| && gaps[k].Some? && gaps[k].value > band
              && forall j :: k < j < |gaps| && gaps[j].Some? ==> gaps[j].value >= -band
  {
    EnteredExactly(gaps, band);
    hide Held;
    if k :| EnteredAt(gaps, band, k) {
      assert gaps[k].Some?;
    }
    forall k | 0 <= k < |gaps| && gaps[k].Some? && gaps[k].value > band
      ensures (forall j :: k < j < |gaps| && gaps[j].Some? ==> gaps[j].value >= -band) ==> EnteredAt(gaps, band, k)
    {
    }
  }

  lemma {:induction false} EnteredExactly(gaps: seq<Option<real>>, band: real)
    requires band > 0.0
    ensures Held(gaps, band) <==> exists k :: EnteredAt(gaps, band, k)
  {
    if gaps != [] {
      var n := |gaps| - 1;
      var before, last := gaps[..n], gaps[n];
      EnteredExactly(before, band);
      assert forall k :: k != n ==>
          (EnteredAt(gaps, band, k) <==> EnteredAt(before, band, k) && (last.Some? ==> last.value >= -band)) by {
        forall k | k != n
          ensures EnteredAt(gaps, band, k) <==> EnteredAt(before, band, k) && (last.Some? ==> last.value >= -band)
        {
          EnteredNext(gaps, band, k);
        }
      }
      assert EnteredAt(gaps, band, n) <==> last.Some? && last.value > band;
      hide EnteredAt;
    }
  }

  lemma EnteredNext(gaps: seq<Option<real>>, band: real, k: int)
    requires gaps != [] && k != |gaps| - 1
    ensures var n := |gaps| - 1;
            EnteredAt(gaps, band, k) <==>
            EnteredAt(gaps[..n], band, k) && (gaps[n].Some? ==> gaps[n].value >= -band)
  {
    var before := gaps[..|gaps| - 1];
    assert forall j :: 0 <= j < |before| ==> before[j] == gaps[j];
  }

  // The relative gap of the averages at bar j, if both are defined and the slow one is not zero.
  ghost predicate GapIs(c: seq<real>, p: Pair, j: nat, g: real)
    requires ValidPair(p) && j < |c|
  {
    && p.fast <= j + 1 && p.slow <= j + 1
    && var fast := Total(c[j + 1 - p.fast..j + 1]) / (p.fast as real);
       var slow := Total(c[j + 1 - p.slow..j + 1]) / (p.slow as real);
       slow != 0.0 && g == (fast - slow) / slow
  }

  lemma GapExactly(c: seq<real>, p: Pair, j: nat, g: real)
    requires ValidPair(p) && j < |c|
    ensures Gap(c, p, j) == Some(g) <==> GapIs(c, p, j, g)
  {
    if Warm(p, j) {
      MeanIs(c, p.fast, j);
      MeanIs(c, p.slow, j);
    }
  }

  /** With a band, a bar trades the overlay exactly when some earlier bar's gap was above the band and no
      gap since, up to the bar before, has been below its negative. */
  lemma TradedWithBand(c: seq<real>, p: Pair, band: real, i: nat)
    requires ValidPair(p) && i < |c| && band > 0.0
    ensures Traded(c, p, band, i) == 1.0 || Traded(c, p, band, i) == 0.0
    ensures Traded(c, p, band, i) == 1.0 <==>
            exists k: nat, g: real :: k < i && GapIs(c, p, k, g) && g > band
              && forall j: nat, h: real :: k < j < i && GapIs(c, p, j, h) ==> h >= -band
  {
    if i > 0 {
      var gaps := Gaps(c, p, i);
      forall j: nat, g: real | j < i ensures GapIs(c, p, j, g) <==> gaps[j] == Some(g) {
        GapExactly(c, p, j, g);
      }
      hide GapIs, Gap, Held;
      EnteredExactly(gaps, band);
      if Held(gaps, band) {
        var k :| EnteredAt(gaps, band, k);
        assert GapIs(c, p, k, gaps[k].value);
      }
      forall k: nat, g: real | k < i && GapIs(c, p, k, g) && g > band
        ensures (forall j: nat, h: real :: k < j < i && GapIs(c, p, j, h) ==> h >= -band) ==> EnteredAt(gaps, band, k)
      {
        forall j: nat | k < j < i && gaps[j].Some? ensures GapIs(c, p, j, gaps[j].value) {
        }
      }
    }
  }

  /** Without a band, exactly when the bar before had both averages and the fast one was above. */
  lemma TradedRaw(c: seq<real>, p: Pair, band: real, i: nat)
    requires ValidPair(p) && i < |c| && band <= 0.0
    ensures Traded(c, p, band, i) == if
              && p.fast <= i && p.slow <= i && i > 0
              && Total(c[i - p.fast..i]) / (p.fast as real) > Total(c[i - p.slow..i]) / (p.slow as real)
            then 1.0 else 0.0
  {
    if i > 0 && Warm(p, i - 1) {
      MeanIs(c, p.fast, i - 1);
      MeanIs(c, p.slow, i - 1);
    }
  }

  /******* How often the signal flips *******/

  predicate Last(s: seq<bool>) {
    s != [] && s[|s| - 1]
  }

  // Changes of mind, starting from out of the market.
  function Flips(s: seq<bool>): nat {
    if s == [] then 0
    else Flips(s[..|s| - 1]) + if s[|s| - 1] != Last(s[..|s| - 1]) then 1 else 0
  }

  function Levels(gaps: seq<Option<real>>, band: real): (s: seq<bool>)
    ensures |s| == |gaps|
    ensures forall i :: 0 <= i < |s| ==> s[i] == Held(gaps[..i + 1], band)
  {
    if gaps == [] then []
    else
      var n := |gaps| - 1;
      assert gaps[..n + 1] == gaps;
      assert forall i {:trigger Held(gaps[..i + 1], band)} :: 0 <= i < n ==> gaps[..n][..i + 1] == gaps[..i + 1];
      Levels(gaps[..n], band) + [Held(gaps, band)]
  }

  lemma LevelsLast(gaps: seq<Option<real>>, band: real)
    ensures Last(Levels(gaps, band)) == Held(gaps, band)
    ensures gaps != [] ==> Levels(gaps, band)[..|gaps| - 1] == Levels(gaps[..|gaps| - 1], band)
  {
    assert gaps != [] ==> gaps[..|gaps|] == gaps;
  }

  // A coarse signal that agrees with a fine one whenever it flips cannot flip more often.
  lemma {:induction false} FlipsDominated(fine: seq<bool>, coarse: seq<bool>)
    requires |fine| == |coarse|
    requires forall i :: 0 <= i < |coarse| && coarse[i] != Last(coarse[..i]) ==> fine[i] == coarse[i]
    ensures Flips(coarse) <= Flips(fine)
    ensures Last(fine) != Last(coarse) ==> Flips(coarse) < Flips(fine)
  {
    if fine != [] {
      var n := |fine| - 1;
      forall i | 0 <= i < n && coarse[..n][i] != Last(coarse[..n][..i]) ensures fine[..n][i] == coarse[..n][i] {
        assert coarse[..n][..i] == coarse[..i];
      }
      FlipsDominated(fine[..n], coarse[..n]);
    }
  }

  /** Widening the band never adds a flip, whatever the gaps. */
  lemma WiderBandFlipsLess(gaps: seq<Option<real>>, narrow: real, wide: real)
    requires 0.0 < narrow <= wide
    ensures Flips(Levels(gaps, wide)) <= Flips(Levels(gaps, narrow))
  {
    var fine, coarse := Levels(gaps, narrow), Levels(gaps, wide);
    forall i | 0 <= i < |coarse| && coarse[i] != Last(coarse[..i]) ensures fine[i] == coarse[i] {
      FlipCause(gaps, wide, i);
      assert gaps[..i + 1][..i] == gaps[..i];
    }
    FlipsDominated(fine, coarse);
  }

  // A flip happens on a gap outside the band, on the side flipped to.
  lemma FlipCause(gaps: seq<Option<real>>, band: real, i: nat)
    requires i < |gaps| && Levels(gaps, band)[i] != Last(Levels(gaps, band)[..i])
    ensures Last(Levels(gaps, band)[..i]) == Held(gaps[..i], band)
    ensures gaps[i].Some?
    ensures if Levels(gaps, band)[i] then gaps[i].value > band else gaps[i].value < -band
  {
    assert gaps[..i + 1][..i] == gaps[..i];
    if i > 0 {
      assert Levels(gaps, band)[..i][i - 1] == Held(gaps[..i], band);
    }
  }

  predicate Positive(c: seq<real>) {
    forall i :: 0 <= i < |c| ==> c[i] > 0.0
  }

  lemma {:induction false} SumPositive(c: seq<real>, lo: nat, hi: nat)
    requires Positive(c) && lo <= hi <= |c|
    ensures lo < hi ==> Sum(c, lo, hi) > 0.0
  {
    if lo + 1 < hi {
      SumPositive(c, lo, hi - 1);
    }
  }

  // With positive prices the gap has the sign of the crossover.
  lemma GapSign(c: seq<real>, p: Pair, i: nat)
    requires Positive(c) && ValidPair(p) && i < |c|
    ensures Gap(c, p, i).None? <==> !Warm(p, i)
    ensures Warm(p, i) ==> (Gap(c, p, i).value > 0.0 <==> FastAbove(c, p, i))
  {
    if Warm(p, i) {
      SumPositive(c, i + 1 - p.slow, i + 1);
      var f, s := Mean(c, p.fast, i), Mean(c, p.slow, i);
      DivisionSign(Sum(c, i + 1 - p.slow, i + 1), p.slow as real);
      DivisionSign(f - s, s);
    }
  }

  lemma DivisionSign(x: real, y: real)
    requires y > 0.0
    ensures x / y > 0.0 <==> x > 0.0
  {
    assert x == (x / y) * y;
  }

  function RawLevels(c: seq<real>, p: Pair, n: nat): (s: seq<bool>)
    requires ValidPair(p) && n <= |c|
    ensures |s| == n && forall i :: 0 <= i < n ==> s[i] == FastAbove(c, p, i)
  {
    seq(n, i requires 0 <= i < n => FastAbove(c, p, i))
  }

  /** With positive prices a band never flips more often than the raw crossover it replaces. */
  lemma BandFlipsLessThanRaw(c: seq<real>, p: Pair, band: real, n: nat)
    requires Positive(c) && ValidPair(p) && band > 0.0 && n <= |c|
    ensures Flips(Levels(Gaps(c, p, n), band)) <= Flips(RawLevels(c, p, n))
  {
    var gaps := Gaps(c, p, n);
    var fine, coarse := RawLevels(c, p, n), Levels(gaps, band);
    forall i | 0 <= i < |coarse| && coarse[i] != Last(coarse[..i]) ensures fine[i] == coarse[i] {
      FlipCause(gaps, band, i);
      GapSign(c, p, i);
    }
    FlipsDominated(fine, coarse);
  }

  /** Two consecutive flips are a gap change of more than twice the band apart. */
  lemma ConsecutiveFlipsApart(gaps: seq<Option<real>>, band: real, i: nat, j: nat)
    requires i < j < |gaps| && band > 0.0
    requires var s := Levels(gaps, band); s[i] != Last(s[..i]) && s[j] != Last(s[..j])
    requires var s := Levels(gaps, band); forall k :: i < k < j ==> s[k] == Last(s[..k])
    ensures gaps[i].Some? && gaps[j].Some?
    ensures if Levels(gaps, band)[i] then gaps[i].value - gaps[j].value > 2.0 * band
        else gaps[j].value - gaps[i].value > 2.0 * band
  {
    FlipCause(gaps, band, i);
    FlipCause(gaps, band, j);
    Steady(Levels(gaps, band), i, j);
  }

  lemma {:induction false} Steady(s: seq<bool>, i: nat, j: nat)
    requires i < j < |s| && forall k :: i < k < j ==> s[k] == Last(s[..k])
    ensures Last(s[..j]) == s[i]
  {
    if i + 1 < j {
      Steady(s, i, j - 1);
    }
  }

  /******* The number of flips is bounded by how far the gap travels *******/

  function Abs(x: real): real {
    if x < 0.0 then -x else x
  }

  function LastGap(gaps: seq<Option<real>>): Option<real> {
    if gaps == [] then None
    else if gaps[|gaps| - 1].Some? then gaps[|gaps| - 1]
    else LastGap(gaps[..|gaps| - 1])
  }

  // The total distance between successive defined gaps.
  function Travel(gaps: seq<Option<real>>): real {
    if gaps == [] then 0.0
    else
      var before, g := gaps[..|gaps| - 1], gaps[|gaps| - 1];
      Travel(before) + if g.Some? && LastGap(before).Some? then Abs(g.value - LastGap(before).value) else 0.0
  }

  // Gaps that stay level travel nothing.
  lemma {:induction false} LevelTravel(gaps: seq<Option<real>>, x: real)
    requires forall k :: 0 <= k < |gaps| && gaps[k].Some? ==> gaps[k].value == x
    ensures Travel(gaps) == 0.0 && (LastGap(gaps).Some? ==> LastGap(gaps).value == x)
  {
    if gaps != [] {
      LevelTravel(gaps[..|gaps| - 1], x);
    }
  }

  // What f flips cost: nothing for the first, twice the band for each one after it.
  function Toll(band: real, f: nat): real {
    if f <= 1 then 0.0 else Toll(band, f - 1) + 2.0 * band
  }

  lemma {:induction false} TollIs(band: real, f: nat)
    requires f > 0
    ensures Toll(band, f) == 2.0 * band * ((f - 1) as real)
  {
    if f > 1 {
      TollIs(band, f - 1);
      assert 2.0 * band * ((f - 1) as real) == 2.0 * band * ((f - 2) as real) + 2.0 * band;
    }
  }

  // ... and the gap is still short of the next toll by its distance from the far side of the band.
  lemma {:induction false} FlipsAndTravel(gaps: seq<Option<real>>, band: real)
    requires band > 0.0
    ensures var f, gap := Flips(Levels(gaps, band)), LastGap(gaps);
            && (f == 0 ==> !Held(gaps, band))
            && (f > 0 ==> gap.Some?)
            && Toll(band, f) <= Travel(gaps)
            && (f > 0 ==> Toll(band, f) + band + (if Held(gaps, band) then -gap.value else gap.value) <= Travel(gaps))
  {
    if gaps != [] {
      var before := gaps[..|gaps| - 1];
      FlipsAndTravel(before, band);
      LevelsLast(gaps, band);
      LevelsLast(before, band);
      FlipsStep(Levels(gaps, band));
      hide Levels, Flips, LastGap;
      TravelStep(gaps);
    }
  }

  lemma FlipsStep(s: seq<bool>)
    requires s != []
    ensures Flips(s) == Flips(s[..|s| - 1]) + if Last(s) != Last(s[..|s| - 1]) then 1 else 0
  {
  }

  lemma TravelStep(gaps: seq<Option<real>>)
    requires gaps != []
    ensures var before, g := gaps[..|gaps| - 1], gaps[|gaps| - 1];
            && (g.Some? ==> LastGap(gaps) == g)
            && (g.None? ==> LastGap(gaps) == LastGap(before) && Travel(gaps) == Travel(before))
            && Travel(before) <= Travel(gaps)
            && (g.Some? && LastGap(before).Some? ==>
                  && g.value - LastGap(before).value <= Travel(gaps) - Travel(before)
                  && LastGap(before).value - g.value <= Travel(gaps) - Travel(before))
  {
  }

  /** Every flip after the first costs the gap a journey of at least twice the band. */
  lemma TravelBoundsFlips(gaps: seq<Option<real>>, band: real)
    requires band > 0.0
    ensures Flips(Levels(gaps, band)) > 0 ==> 2.0 * band * ((Flips(Levels(gaps, band)) - 1) as real) <= Travel(gaps)
  {
    hide *;
    var f := Flips(Levels(gaps, band));
    FlipsAndTravel(gaps, band);
    if f > 0 {
      TollIs(band, f);
    }
  }
}
