/** Putting slower series onto a bar index without letting a value be seen before it was known:
    higher-timeframe bars by shifted reindex and fill, funding and open interest by backward join. */
module Alignment {
  import opened Common
  import opened Timeline
  import opened KlineCursor
  import opened Columns

  /******* Higher-timeframe bars *******/

  // A frame: the value of each bar by its opening stamp. The period is None when it cannot be inferred.
  type Frame = map<int, Option<real>>

  function Shift(period: Option<nat>): nat {
    if period.Some? then period.value else 0
  }

  // The shifted bar standing at each aligned stamp, if any.
  function Reindexed(frame: Frame, period: Option<nat>, index: seq<int>): (r: Column)
    ensures |r| == |index|
  {
    seq(|index|, k requires 0 <= k < |index| =>
          var open := index[k] - Shift(period);
          if open in frame then frame[open] else None)
  }

  function Aligned(frame: Frame, period: Option<nat>, index: seq<int>): (r: Column)
    ensures |r| == |index|
  {
    Ffill(Reindexed(frame, period, index))
  }

  lemma ReindexedAt(frame: Frame, p: nat, index: seq<int>, k: nat)
    requires k < |index|
    ensures Reindexed(frame, Some(p), index)[k] == if index[k] - p in frame then frame[index[k] - p] else None
  {
    assert Shift(Some(p)) == p;
  }

  /** A value on the aligned index comes from a bar that has closed: one whose opening stamp plus the
      period is no later than the aligned stamp. */
  lemma {:induction false} AlignedIsClosed(frame: Frame, p: nat, index: seq<int>, k: nat)
    requires Sorted(index) && k < |index| && Aligned(frame, Some(p), index)[k].Some?
    ensures exists open ::
              open in frame && frame[open] == Aligned(frame, Some(p), index)[k] && open + p <= index[k]
  {
    var s := Reindexed(frame, Some(p), index);
    FfillStep(s, k);
    ReindexedAt(frame, p, index, k);
    if s[k].Some? {
      assert index[k] - p in frame;
    } else {
      AlignedIsClosed(frame, p, index, k - 1);
    }
  }

  // The frame without the bars that close after the horizon.
  function Known(frame: Frame, p: nat, horizon: int): Frame {
    map open | open in frame && open + p <= horizon :: frame[open]
  }

  /** With the period fixed, deleting every bar that closes after a horizon changes no aligned value
      at or before it. */
  lemma {:induction false} AlignmentIsCausal(frame: Frame, p: nat, index: seq<int>, horizon: int, k: nat)
    requires Sorted(index) && k < |index| && index[k] <= horizon
    ensures var known: Frame := map open | open in frame && open + p <= horizon :: frame[open];
            Aligned(known, Some(p), index)[k] == Aligned(frame, Some(p), index)[k]
  {
    FfillStep(Reindexed(frame, Some(p), index), k);
    FfillStep(Reindexed(Known(frame, p, horizon), Some(p), index), k);
    ReindexedAt(frame, p, index, k);
    ReindexedAt(Known(frame, p, horizon), p, index, k);
    if k > 0 {
      AlignmentIsCausal(frame, p, index, horizon, k - 1);
    }
  }

  /******* Fill against as-of *******/

  // The close stamp whose bar the fill shows at position k: the last one met on the index.
  function LastMet(stamps: set<int>, index: seq<int>, k: nat): Option<int>
    requires k < |index|
  {
    if index[k] in stamps then Some(index[k]) else if k == 0 then None else LastMet(stamps, index, k - 1)
  }

  // The close stamp a backward as-of join shows at time t: the latest one not after it.
  ghost predicate IsLatest(stamps: set<int>, t: int, s: Option<int>) {
    match s
    case None => forall x :: x in stamps ==> x > t
    case Some(v) => v in stamps && v <= t && forall x :: x in stamps && x <= t ==> x <= v
  }

  function CloseStamps(frame: Frame, period: Option<nat>): set<int> {
    set open | open in frame :: open + Shift(period)
  }

  // With no missing values the fill shows the bar of the last stamp met.
  lemma {:induction false} FillShows(frame: Frame, period: Option<nat>, index: seq<int>, k: nat)
    requires k < |index| && forall open :: open in frame ==> frame[open].Some?
    ensures match LastMet(CloseStamps(frame, period), index, k)
            case None => Aligned(frame, period, index)[k].None?
            case Some(s) => s - Shift(period) in frame && Aligned(frame, period, index)[k] == frame[s - Shift(period)]
  {
    var s := Reindexed(frame, period, index);
    FfillStep(s, k);
    MetExactly(frame, period, index[k]);
    if k > 0 {
      FillShows(frame, period, index, k - 1);
    }
  }

  /** With no missing values an aligned stamp shows the bar of the last closing time met on the index: the bar
      that opened a period before it. Without a period it shows the bar that opened then. */
  lemma AlignedShows(frame: Frame, p: nat, index: seq<int>, k: nat)
    requires k < |index| && forall open :: open in frame ==> frame[open].Some?
    ensures match LastMet(set open | open in frame :: open + p, index, k)
            case None => Aligned(frame, Some(p), index)[k].None?
            case Some(s) => s - p in frame && Aligned(frame, Some(p), index)[k] == frame[s - p]
    ensures match LastMet(frame.Keys, index, k)
            case None => Aligned(frame, None, index)[k].None?
            case Some(s) => s in frame && Aligned(frame, None, index)[k] == frame[s]
  {
    assert CloseStamps(frame, Some(p)) == set open | open in frame :: open + p;
    assert CloseStamps(frame, None) == frame.Keys by {
      forall s ensures s in CloseStamps(frame, None) <==> s in frame {
        MetExactly(frame, None, s);
      }
    }
    hide Aligned, LastMet;
    FillShows(frame, Some(p), index, k);
    FillShows(frame, None, index, k);
  }

  lemma MetExactly(frame: Frame, period: Option<nat>, t: int)
    ensures t in CloseStamps(frame, period) <==> t - Shift(period) in frame
  {
    if t - Shift(period) in frame {
      assert (t - Shift(period)) + Shift(period) == t;
    }
  }

  lemma {:induction false} LastMetIn(stamps: set<int>, index: seq<int>, k: nat)
    requires k < |index| && LastMet(stamps, index, k).Some?
    ensures LastMet(stamps, index, k).value in stamps && LastMet(stamps, index, k).value in index
  {
    if index[k] !in stamps {
      LastMetIn(stamps, index, k - 1);
    }
  }

  /** A table of one bar gives no period to shift by. Some aligned stamp then shows the bar before it
      has closed exactly when its opening stands on the index. */
  lemma OneBarSeenEarly(open: int, value: real, period: nat, index: seq<int>)
    requires period > 0
    ensures (exists k :: 0 <= k < |index| && index[k] < open + period
                         && Aligned(map[open := Some(value)], None, index)[k] == Some(value)) <==> open in index
  {
    var frame: Frame := map[open := Some(value)];
    forall s ensures s in CloseStamps(frame, None) ==> s == open {
      MetExactly(frame, None, s);
    }
    forall k | 0 <= k < |index| && Aligned(frame, None, index)[k] == Some(value) ensures open in index {
      FillShows(frame, None, index, k);
      LastMetIn(CloseStamps(frame, None), index, k);
    }
    if open in index {
      var k :| 0 <= k < |index| && index[k] == open;
      FfillStep(Reindexed(frame, None, index), k);
      assert index[k] - Shift(None) == open;
      assert Aligned(frame, None, index)[k] == Some(value) && index[k] < open + period;
    }
  }

  lemma {:induction false} LastMetBounds(stamps: set<int>, index: seq<int>, k: nat)
    requires Sorted(index) && k < |index|
    ensures match LastMet(stamps, index, k)
            case None => forall j :: 0 <= j <= k ==> index[j] !in stamps
            case Some(s) =>
              s in stamps && s in index && s <= index[k]
              && forall j :: 0 <= j <= k && index[j] in stamps ==> index[j] <= s
  {
    if k > 0 && index[k] !in stamps {
      LastMetBounds(stamps, index, k - 1);
    }
  }

  /** Reindex-and-fill is the backward as-of join at a stamp exactly when the close that the join would
      show there, if there is one, stands on the index. */
  lemma FillIsAsOf(stamps: set<int>, index: seq<int>, k: nat, latest: Option<int>)
    requires Sorted(index) && k < |index| && IsLatest(stamps, index[k], latest)
    ensures LastMet(stamps, index, k) == latest <==> latest.None? || latest.value in index
  {
    LastMetBounds(stamps, index, k);
    hide LastMet;
    if latest.Some? && latest.value in index {
      var j :| 0 <= j < |index| && index[j] == latest.value;
      assert index[if j <= k then j else k] == latest.value;
    }
  }

  /******* Funding and open interest *******/

  // merge_asof(direction="backward"): the last record not after t.
  function AsOf(recs: seq<Rec>, t: int): Option<real> {
    if recs == [] then None
    else if recs[|recs| - 1].ts <= t then recs[|recs| - 1].value
    else AsOf(recs[..|recs| - 1], t)
  }

  function Joined(recs: seq<Rec>, bars: seq<int>): (r: Column)
    ensures |r| == |bars|
  {
    seq(|bars|, k requires 0 <= k < |bars| => AsOf(recs, bars[k]))
  }

  function InsertStamp(s: seq<int>, t: int): (r: seq<int>)
    ensures |r| == |s| + 1
  {
    if s == [] || t < s[0] then [t] + s else [s[0]] + InsertStamp(s[1..], t)
  }

  function SortStamps(bars: seq<int>): (r: seq<int>)
    ensures |r| == |bars|
  {
    if bars == [] then [] else InsertStamp(SortStamps(bars[..|bars| - 1]), bars[|bars| - 1])
  }

  // The join is made on the sorted stamps and its column put back by position.
  function FundingColumn(recs: seq<Rec>, bars: seq<int>): (r: Column)
    ensures |r| == |bars|
  {
    FillZero(Ffill(Joined(recs, SortStamps(bars))))
  }

  lemma {:induction false} InsertAtEnd(s: seq<int>, t: int)
    requires forall i :: 0 <= i < |s| ==> s[i] <= t
    ensures InsertStamp(s, t) == s + [t]
  {
    if s != [] {
      InsertAtEnd(s[1..], t);
      assert s == [s[0]] + s[1..];
    }
  }

  lemma {:induction false} SortSorted(bars: seq<int>)
    requires Sorted(bars)
    ensures SortStamps(bars) == bars
  {
    if bars != [] {
      SortSorted(bars[..|bars| - 1]);
      InsertAtEnd(bars[..|bars| - 1], bars[|bars| - 1]);
    }
  }

  lemma {:induction false} AsOfKnown(recs: seq<Rec>, horizon: int, t: int)
    requires t <= horizon
    ensures AsOf(UpTo(recs, horizon), t) == AsOf(recs, t)
  {
    if recs != [] {
      var before, last := recs[..|recs| - 1], recs[|recs| - 1];
      AsOfKnown(before, horizon, t);
      if last.ts <= horizon {
        var known := UpTo(before, horizon);
        assert (known + [last])[..|known|] == known;
      } else {
        assert UpTo(before, horizon) + [] == UpTo(before, horizon);
      }
    }
  }

  lemma {:induction false} FfillJoinedKnown(recs: seq<Rec>, bars: seq<int>, horizon: int, k: nat)
    requires Sorted(bars) && k < |bars| && bars[k] <= horizon
    ensures Ffill(Joined(UpTo(recs, horizon), bars))[k] == Ffill(Joined(recs, bars))[k]
  {
    FfillStep(Joined(recs, bars), k);
    FfillStep(Joined(UpTo(recs, horizon), bars), k);
    AsOfKnown(recs, horizon, bars[k]);
    if k > 0 {
      FfillJoinedKnown(recs, bars, horizon, k - 1);
    }
  }

  /** On time-sorted bars, deleting the funding after a horizon changes no bar at or before it. */
  lemma FundingIsCausal(recs: seq<Rec>, bars: seq<int>, horizon: int, k: nat)
    requires Sorted(bars) && k < |bars| && bars[k] <= horizon
    ensures FundingColumn(UpTo(recs, horizon), bars)[k] == FundingColumn(recs, bars)[k]
  {
    SortSorted(bars);
    FfillJoinedKnown(recs, bars, horizon, k);
    hide Ffill, Joined, SortStamps;
  }

  // The number of records settled by a time, which for ordered records is where the later ones begin.
  predicate SettledBefore(recs: seq<Rec>, t: int, n: nat) {
    n <= |recs| && (forall i :: 0 <= i < n ==> recs[i].ts <= t) && forall i :: n <= i < |recs| ==> recs[i].ts > t
  }

  lemma {:induction false} AsOfIs(recs: seq<Rec>, t: int, n: nat)
    requires SettledBefore(recs, t, n)
    ensures AsOf(recs, t) == if n == 0 then None else recs[n - 1].value
  {
    if n < |recs| {
      AsOfIs(recs[..|recs| - 1], t, n);
    }
  }

  /** On time-sorted bars each bar carries the rate settled last at or before it, or zero before the
      first settlement. */
  lemma FundingShowsLatest(recs: seq<Rec>, bars: seq<int>, k: nat, n: nat)
    requires Sorted(bars) && k < |bars| && SettledBefore(recs, bars[k], n)
    requires forall i :: 0 <= i < |recs| ==> recs[i].value.Some?
    ensures FundingColumn(recs, bars)[k] == if n == 0 then Some(0.0) else recs[n - 1].value
  {
    SortSorted(bars);
    AsOfIs(recs, bars[k], n);
    FfillStep(Joined(recs, bars), k);
    hide Ffill, SortStamps, AsOf;
    if n == 0 {
      NothingYet(recs, bars, k);
    }
  }

  lemma {:induction false} NothingYet(recs: seq<Rec>, bars: seq<int>, k: nat)
    requires Sorted(bars) && k < |bars| && SettledBefore(recs, bars[k], 0)
    ensures Ffill(Joined(recs, bars))[k] == None
  {
    FfillStep(Joined(recs, bars), k);
    AsOfIs(recs, bars[k], 0);
    if k > 0 {
      NothingYet(recs, bars, k - 1);
    }
  }

  // Some funding settled after a bar changes that bar's rate.
  ghost predicate LooksAhead(bars: seq<int>) {
    exists recs, horizon, k: nat :: k < |bars| && bars[k] <= horizon
      && FundingColumn(UpTo(recs, horizon), bars)[k] != FundingColumn(recs, bars)[k]
  }

  function Total(s: seq<int>): int {
    if s == [] then 0 else s[0] + Total(s[1..])
  }

  lemma {:induction false} TotalAppend(s: seq<int>, t: int)
    ensures Total(s + [t]) == Total(s) + t
  {
    if s == [] {
      assert s + [t] == [t];
    } else {
      TotalAppend(s[1..], t);
      assert (s + [t])[1..] == s[1..] + [t];
    }
  }

  lemma {:induction false} InsertAbove(s: seq<int>, t: int, low: int)
    requires low <= t && forall i :: 0 <= i < |s| ==> low <= s[i]
    ensures forall i :: 0 <= i < |InsertStamp(s, t)| ==> low <= InsertStamp(s, t)[i]
  {
    if s != [] && t >= s[0] {
      InsertAbove(s[1..], t, low);
    }
  }

  lemma {:induction false} InsertSorts(s: seq<int>, t: int)
    requires Sorted(s)
    ensures Sorted(InsertStamp(s, t)) && Total(InsertStamp(s, t)) == Total(s) + t
  {
    if s != [] && t >= s[0] {
      InsertSorts(s[1..], t);
      InsertAbove(s[1..], t, s[0]);
    }
  }

  lemma {:induction false} SortSorts(bars: seq<int>)
    ensures Sorted(SortStamps(bars)) && Total(SortStamps(bars)) == Total(bars)
  {
    if bars != [] {
      var before, last := bars[..|bars| - 1], bars[|bars| - 1];
      SortSorts(before);
      InsertSorts(SortStamps(before), last);
      TotalAppend(before, last);
      assert before + [last] == bars;
    }
  }

  lemma {:induction false} InsertHas(s: seq<int>, t: int)
    ensures multiset(InsertStamp(s, t)) == multiset(s) + multiset{t}
  {
    if s != [] && t >= s[0] {
      InsertHas(s[1..], t);
      assert s == [s[0]] + s[1..];
    }
  }

  lemma SortStep(bars: seq<int>)
    requires bars != []
    ensures SortStamps(bars) == InsertStamp(SortStamps(bars[..|bars| - 1]), bars[|bars| - 1])
  {
    hide InsertStamp;
  }

  lemma LastApart(bars: seq<int>, before: seq<int>, last: int)
    requires bars != [] && before == bars[..|bars| - 1] && last == bars[|bars| - 1]
    ensures multiset(bars) == multiset(before) + multiset{last}
  {
    hide *;
    assert bars == before + [last];
  }

  lemma {:induction false} SortHas(bars: seq<int>)
    ensures multiset(SortStamps(bars)) == multiset(bars)
  {
    if bars != [] {
      SortHas(bars[..|bars| - 1]);
      SortStep(bars);
      hide *;
      LastApart(bars, bars[..|bars| - 1], bars[|bars| - 1]);
      InsertHas(SortStamps(bars[..|bars| - 1]), bars[|bars| - 1]);
    }
  }

  /** The join's stamps are the bars' own, in time order. */
  lemma SortIs(bars: seq<int>)
    ensures Sorted(SortStamps(bars)) && multiset(SortStamps(bars)) == multiset(bars)
  {
    hide *;
    SortSorts(bars);
    SortHas(bars);
  }

  /** And the k-th bar is given the rate settled last at or before the k-th of those stamps, whatever its own. */
  lemma FundingByPosition(recs: seq<Rec>, bars: seq<int>, k: nat, n: nat)
    requires k < |bars| && SettledBefore(recs, SortStamps(bars)[k], n)
    requires forall i :: 0 <= i < |recs| ==> recs[i].value.Some?
    ensures FundingColumn(recs, bars)[k] == if n == 0 then Some(0.0) else recs[n - 1].value
  {
    SortSorts(bars);
    SortSorted(SortStamps(bars));
    hide SortStamps;
    FundingShowsLatest(recs, SortStamps(bars), k, n);
  }

  // Of two different columns with the same total, the first is larger somewhere.
  lemma {:induction false} LargerSomewhere(s: seq<int>, t: seq<int>) returns (k: nat)
    requires |s| == |t| && (Total(s) > Total(t) || (Total(s) == Total(t) && s != t))
    ensures k < |s| && s[k] > t[k]
  {
    if s[0] > t[0] {
      k := 0;
    } else {
      assert s == [s[0]] + s[1..] && t == [t[0]] + t[1..];
      k := LargerSomewhere(s[1..], t[1..]);
      k := k + 1;
    }
  }

  lemma LaterStampLeaks(bars: seq<int>, k: nat)
    requires k < |bars| && SortStamps(bars)[k] > bars[k]
    ensures LooksAhead(bars)
  {
    hide SortStamps, Ffill;
    var stamps := SortStamps(bars);
    var recs := [Rec(stamps[k], Some(1.0))];
    assert recs[..0] == [] && UpTo(recs, bars[k]) == [];
    FfillStep(Joined(recs, stamps), k);
    assert FundingColumn(recs, bars)[k] == Some(1.0);
    NothingJoined(stamps, k);
    assert FundingColumn(UpTo(recs, bars[k]), bars)[k] == Some(0.0);
  }

  lemma {:induction false} NothingJoined(bars: seq<int>, k: nat)
    requires k < |bars|
    ensures Ffill(Joined([], bars))[k] == None
  {
    FfillStep(Joined([], bars), k);
    if k > 0 {
      NothingJoined(bars, k - 1);
    }
  }

  /** The funding join is safe for every funding history exactly when the bars are in time order: the
      joined column is put back by position, so any disorder gives some bar a later rate. */
  lemma LooksAheadUnlessSorted(bars: seq<int>)
    ensures LooksAhead(bars) <==> !Sorted(bars)
  {
    if Sorted(bars) {
      forall recs, horizon, k: nat | k < |bars| && bars[k] <= horizon
        ensures FundingColumn(UpTo(recs, horizon), bars)[k] == FundingColumn(recs, bars)[k]
      {
        FundingIsCausal(recs, bars, horizon, k);
      }
    } else {
      SortSorts(bars);
      var k := LargerSomewhere(SortStamps(bars), bars);
      LaterStampLeaks(bars, k);
    }
  }

  // The open-interest column is also filled backwards, then with 1.
  function Bfill(s: Column): (r: Column)
    ensures |r| == |s|
  {
    if s == [] then []
    else
      var rest := Bfill(s[1..]);
      [if s[0].Some? || rest == [] then s[0] else rest[0]] + rest
  }

  function OiColumn(recs: seq<Rec>, bars: seq<int>): Column {
    var s := Bfill(Ffill(Joined(recs, SortStamps(bars))));
    seq(|s|, k requires 0 <= k < |s| => if s[k].Some? then s[k] else Some(1.0))
  }

  lemma {:induction false} BfillStep(s: Column, k: nat)
    requires k < |s|
    ensures Bfill(s)[k] == if s[k].Some? || k + 1 == |s| then s[k] else Bfill(s)[k + 1]
  {
    if k > 0 {
      BfillStep(s[1..], k - 1);
    }
  }

  lemma {:induction false} BfillFirst(s: Column, k: nat, m: nat)
    requires k <= m < |s| && s[m].Some? && forall j :: k <= j < m ==> s[j].None?
    ensures Bfill(s)[k] == s[m]
    decreases m - k
  {
    BfillStep(s, k);
    if k < m {
      BfillFirst(s, k + 1, m);
    }
  }

  /** Bars before the first open-interest value carry that later value; from there on the column is
      the backward join, filled forward. */
  lemma OiLooksAheadBeforeFirst(recs: seq<Rec>, bars: seq<int>, m: nat, k: nat)
    requires Sorted(bars) && k < |bars| && m < |bars|
    requires var s := Ffill(Joined(recs, bars)); s[m].Some? && forall j :: 0 <= j < m ==> s[j].None?
    ensures |OiColumn(recs, bars)| == |bars|
    ensures OiColumn(recs, bars)[k] == Ffill(Joined(recs, bars))[if k < m then m else k]
  {
    SortSorted(bars);
    var s := Ffill(Joined(recs, bars));
    if k <= m {
      BfillFirst(s, k, m);
    } else {
      FilledAfter(Joined(recs, bars), m, k);
      BfillStep(s, k);
    }
  }

  lemma {:induction false} FilledAfter(s: Column, m: nat, k: nat)
    requires m <= k < |s| && Ffill(s)[m].Some?
    ensures Ffill(s)[k].Some?
  {
    if m < k {
      FilledAfter(s, m, k - 1);
      FfillStep(s, k);
    }
  }

  /** In terms of the records: a bar by which n of them have settled carries the last of these; one by which none
      has carries that of the first bar m by which some have, or 1.0 when there is no such bar. */
  lemma OiShows(recs: seq<Rec>, bars: seq<int>, k: nat, n: nat, m: nat, first: nat)
    requires Sorted(bars) && k < |bars| && SettledBefore(recs, bars[k], n)
    requires forall i :: 0 <= i < |recs| ==> recs[i].value.Some?
    requires m <= |bars| && forall j :: 0 <= j < m ==> SettledBefore(recs, bars[j], 0)
    requires m < |bars| ==> first > 0 && SettledBefore(recs, bars[m], first)
    ensures |OiColumn(recs, bars)| == |bars|
    ensures OiColumn(recs, bars)[k] ==
            if n > 0 then recs[n - 1].value else if m < |bars| then recs[first - 1].value else Some(1.0)
  {
    var s := Ffill(Joined(recs, bars));
    forall j | 0 <= j < m ensures s[j].None? {
      NothingYet(recs, bars, j);
    }
    AsOfIs(recs, bars[k], n);
    FfillStep(Joined(recs, bars), k);
    if m < |bars| {
      AsOfIs(recs, bars[m], first);
      FfillStep(Joined(recs, bars), m);
      hide OiColumn, Ffill, AsOf;
      OiLooksAheadBeforeFirst(recs, bars, m, k);
    } else {
      SortSorted(bars);
      NoneBelow(s, k);
    }
  }

  lemma {:induction false} NoneBelow(s: Column, k: nat)
    requires k < |s| && forall j :: 0 <= j < |s| ==> s[j].None?
    ensures Bfill(s)[k].None?
    decreases |s| - k
  {
    BfillStep(s, k);
    if k + 1 < |s| {
      NoneBelow(s, k + 1);
    }
  }
}
