/** Walk-forward segments: a rolling and an anchored loop over forward windows, and the bars each
    window takes. */
module Segments {
  import opened Columns

  const MONTH := 30 * 86_400_000
  const TRAIN := 24 * MONTH
  const STEP := 6 * MONTH

  // Training runs up to, and the forward window from, the second stamp; each range excludes its end.
  datatype Segment = Segment(start: int, trainEnd: int, forwardEnd: int)

  // Where window k begins, which is where window k - 1 ends.
  function Boundary(first: int, k: int): int {
    first + k * STEP
  }

  lemma NextBoundary(first: int, k: int)
    ensures Boundary(first, k + 1) == Boundary(first, k) + STEP
  {
  }

  lemma FirstBoundary(first: int)
    ensures Boundary(first, 0) == first
  {
  }

  lemma BoundaryLater(first: int, k: nat)
    ensures first <= Boundary(first, k)
  {
  }

  // How many whole windows fit between the first boundary and the limit.
  function Count(first: int, limit: int): nat {
    if limit < first then 0 else (limit - first) / STEP
  }

  function MinOf(ts: seq<int>): (m: int)
    requires ts != []
    ensures m in ts && forall x :: x in ts ==> m <= x
  {
    if |ts| == 1 then ts[0]
    else
      assert ts == [ts[0]] + ts[1..];
      var m := MinOf(ts[1..]);
      if ts[0] < m then ts[0] else m
  }

  function MaxOf(ts: seq<int>): (m: int)
    requires ts != []
    ensures m in ts && forall x :: x in ts ==> x <= m
  {
    if |ts| == 1 then ts[0]
    else
      assert ts == [ts[0]] + ts[1..];
      var m := MaxOf(ts[1..]);
      if ts[0] > m then ts[0] else m
  }

  function Least(a: int, b: int): int {
    if a <= b then a else b
  }

  function RollingLimit(ts: seq<int>, end: int): int
    requires ts != []
  {
    Least(end, MaxOf(ts) + 1)
  }

  // Consecutive forward windows from the first boundary, as many as fit.
  ghost predicate Windows(segments: seq<Segment>, first: int, limit: int) {
    && |segments| == Count(first, limit)
    && forall k {:trigger segments[k]} :: 0 <= k < |segments| ==>
         segments[k].trainEnd == Boundary(first, k) && segments[k].forwardEnd == Boundary(first, k + 1)
  }

  /** The rolling loop: training is the 24 months before each window. An empty table raises. */
  method RollingSegments(ts: seq<int>, end: int) returns (segments: seq<Segment>)
    requires ts != []
    ensures Windows(segments, MinOf(ts) + TRAIN, RollingLimit(ts, end))
    ensures forall k :: 0 <= k < |segments| ==> segments[k].start == segments[k].trainEnd - TRAIN >= MinOf(ts)
  {
    var first := MinOf(ts) + TRAIN;
    hide Boundary, Count;
    segments := [];
    assert Boundary(first, 0) == first by {
      FirstBoundary(first);
    }
    var tEnd := first;
    var dataEnd := MaxOf(ts);
    while tEnd + STEP <= Least(end, dataEnd + 1)
      invariant tEnd == Boundary(first, |segments|) >= first
      invariant segments == [] || tEnd <= RollingLimit(ts, end)
      invariant forall k {:trigger segments[k]} :: 0 <= k < |segments| ==>
        segments[k] == Segment(Boundary(first, k) - TRAIN, Boundary(first, k), Boundary(first, k + 1))
      invariant forall k :: 0 <= k < |segments| ==> segments[k].trainEnd >= first
      decreases RollingLimit(ts, end) - tEnd
    {
      NextBoundary(first, |segments|);
      segments := segments + [Segment(tEnd - TRAIN, tEnd, tEnd + STEP)];
      tEnd := tEnd + STEP;
    }
    NextBoundary(first, |segments|);
    CountIs(first, RollingLimit(ts, end), |segments|);
  }

  /** The anchored loop: training always begins at the first row, and the limit is one past the end. */
  method AnchoredSegments(ts: seq<int>, end: int) returns (segments: seq<Segment>)
    requires ts != []
    ensures Windows(segments, ts[0] + TRAIN, end + 1)
    ensures forall k :: 0 <= k < |segments| ==> segments[k].start == ts[0] <= segments[k].trainEnd - TRAIN
  {
    var first := ts[0] + TRAIN;
    hide Boundary, Count;
    segments := [];
    assert Boundary(first, 0) == first by {
      FirstBoundary(first);
    }
    var trEnd := first;
    while trEnd + STEP <= end + 1
      invariant trEnd == Boundary(first, |segments|) >= first
      invariant segments == [] || trEnd <= end + 1
      invariant forall k {:trigger segments[k]} :: 0 <= k < |segments| ==>
        segments[k] == Segment(ts[0], Boundary(first, k), Boundary(first, k + 1))
      invariant forall k :: 0 <= k < |segments| ==> segments[k].trainEnd >= first
      decreases end + 1 - trEnd
    {
      NextBoundary(first, |segments|);
      segments := segments + [Segment(ts[0], trEnd, trEnd + STEP)];
      trEnd := trEnd + STEP;
    }
    NextBoundary(first, |segments|);
    CountIs(first, end + 1, |segments|);
  }

  lemma CountIs(first: int, limit: int, n: nat)
    requires Boundary(first, n + 1) > limit && (n == 0 || Boundary(first, n) <= limit)
    ensures Count(first, limit) == n
  {
    assert STEP == 15_552_000_000;
  }

  /** A boundary is within the limit exactly when it ends one of the windows. */
  lemma Fits(first: int, limit: int, k: nat)
    requires k > 0
    ensures Boundary(first, k) <= limit <==> k <= Count(first, limit)
  {
    assert STEP == 15_552_000_000;
  }

  /** The windows in numbers: 180 days each, one after the other from the first boundary on, and as many of them as
      end by the limit. */
  lemma WindowNumbers(segments: seq<Segment>, first: int, limit: int, k: nat)
    requires Windows(segments, first, limit)
    ensures k < |segments| ==>
              && segments[k].trainEnd == first + k * 15_552_000_000
              && segments[k].forwardEnd == segments[k].trainEnd + 15_552_000_000
    ensures k > 0 ==> (first + k * 15_552_000_000 <= limit <==> k <= |segments|)
    ensures TRAIN == 62_208_000_000
  {
    NextBoundary(first, k);
    assert Boundary(first, k) == first + k * 15_552_000_000;
    if k > 0 {
      Fits(first, limit, k);
    }
    hide Boundary, Count;
  }

  /** The rolling limit is the end or one past the last bar, whichever is earlier. */
  lemma RollingLimitIs(ts: seq<int>, end: int, last: int)
    requires ts != [] && last in ts && forall i :: 0 <= i < |ts| ==> ts[i] <= last
    ensures RollingLimit(ts, end) == if end <= last then end else last + 1
  {
    assert MaxOf(ts) == last;
  }

  /******* Bars in windows *******/

  function Slice(ts: seq<int>, low: int, high: int): seq<int> {
    if ts == [] then []
    else
      var last := ts[|ts| - 1];
      Slice(ts[..|ts| - 1], low, high) + if low <= last < high then [last] else []
  }

  /** On sorted stamps it is a stretch of them: those from the low stamp on and before the high one. */
  lemma {:induction false} SliceIs(ts: seq<int>, low: int, high: int, i: nat, j: nat)
    requires Sorted(ts) && i <= j <= |ts|
    requires forall k :: 0 <= k < |ts| ==> (ts[k] < low <==> k < i) && (ts[k] < high <==> k < j)
    ensures Slice(ts, low, high) == ts[i..j]
  {
    if ts != [] {
      var n := |ts| - 1;
      SliceNext(ts, low, high);
      hide Slice;
      if j == |ts| && i < |ts| {
        SliceIs(ts[..n], low, high, i, n);
        assert ts[i..j] == ts[..n][i..n] + [ts[n]];
      } else if i == |ts| {
        SliceIs(ts[..n], low, high, n, n);
      } else {
        SliceIs(ts[..n], low, high, i, j);
        assert ts[i..j] == ts[..n][i..j];
      }
    }
  }

  // How many of the first n forward windows take a bar at t.
  function Holding(segments: seq<Segment>, n: nat, t: int): nat
    requires n <= |segments|
  {
    if n == 0 then 0
    else Holding(segments, n - 1, t) + if segments[n - 1].trainEnd <= t < segments[n - 1].forwardEnd then 1 else 0
  }

  /** Every stamp from the first boundary to the last is in exactly one forward window, and every other
      stamp in none. */
  lemma {:induction false} ExactlyOneWindow(segments: seq<Segment>, first: int, limit: int, n: nat, t: int)
    requires Windows(segments, first, limit) && n <= |segments|
    ensures Holding(segments, n, t) == if first <= t < Boundary(first, n) then 1 else 0
  {
    if n > 0 {
      ExactlyOneWindow(segments, first, limit, n - 1, t);
    }
  }

  function ForwardBars(ts: seq<int>, segments: seq<Segment>, n: nat): seq<int>
    requires n <= |segments|
  {
    if n == 0 then []
    else ForwardBars(ts, segments, n - 1) + Slice(ts, segments[n - 1].trainEnd, segments[n - 1].forwardEnd)
  }

  lemma SliceNext(ts: seq<int>, low: int, high: int)
    requires ts != []
    ensures Slice(ts, low, high) ==
            Slice(ts[..|ts| - 1], low, high) + if low <= ts[|ts| - 1] < high then [ts[|ts| - 1]] else []
  {
  }

  lemma {:induction false} SliceJoins(ts: seq<int>, low: int, mid: int, high: int)
    requires Sorted(ts) && low <= mid <= high
    ensures Slice(ts, low, mid) + Slice(ts, mid, high) == Slice(ts, low, high)
  {
    if ts != [] {
      var before, last := ts[..|ts| - 1], ts[|ts| - 1];
      SliceJoins(before, low, mid, high);
      if last < mid {
        SliceEmpty(before, mid, high);
      }
      SliceNext(ts, low, mid);
      SliceNext(ts, mid, high);
      SliceNext(ts, low, high);
      hide Slice;
    }
  }

  lemma {:induction false} SliceEmpty(ts: seq<int>, low: int, high: int)
    requires forall i :: 0 <= i < |ts| ==> ts[i] < low || high <= ts[i]
    ensures Slice(ts, low, high) == []
  {
    if ts != [] {
      SliceEmpty(ts[..|ts| - 1], low, high);
    }
  }

  /** One after another the forward windows give the bars between the first and the last boundary:
      none is lost, repeated or moved. */
  lemma {:induction false} ForwardBarsJoin(ts: seq<int>, segments: seq<Segment>, first: int, limit: int, n: nat)
    requires Sorted(ts) && Windows(segments, first, limit) && n <= |segments|
    ensures ForwardBars(ts, segments, n) == Slice(ts, first, Boundary(first, n))
  {
    hide Boundary, Count, Slice;
    if n == 0 {
      FirstBoundary(first);
      SliceEmpty(ts, first, first);
    } else {
      NextBoundary(first, n - 1);
      assert segments[n - 1].trainEnd == Boundary(first, n - 1);
      BoundaryLater(first, n - 1);
      ForwardBarsJoin(ts, segments, first, limit, n - 1);
      SliceJoins(ts, first, Boundary(first, n - 1), Boundary(first, n));
    }
  }

  // The windows evaluated: those with fewer than fifty bars are passed over.
  function Used(ts: seq<int>, segments: seq<Segment>, n: nat): seq<seq<int>>
    requires n <= |segments|
  {
    if n == 0 then []
    else
      var bars := Slice(ts, segments[n - 1].trainEnd, segments[n - 1].forwardEnd);
      Used(ts, segments, n - 1) + if |bars| < 50 then [] else [bars]
  }

  method ForwardSlices(ts: seq<int>, segments: seq<Segment>) returns (used: seq<seq<int>>)
    ensures used == Used(ts, segments, |segments|)
    ensures forall j :: 0 <= j < |used| ==> |used[j]| >= 50
  {
    hide Slice;
    used := [];
    for i := 0 to |segments|
      invariant used == Used(ts, segments, i)
      invariant forall j :: 0 <= j < |used| ==> |used[j]| >= 50
    {
      var bars := Slice(ts, segments[i].trainEnd, segments[i].forwardEnd);
      if |bars| < 50 {
        continue;
      }
      used := used + [bars];
    }
  }

  function Flat(slices: seq<seq<int>>): seq<int> {
    if slices == [] then [] else Flat(slices[..|slices| - 1]) + slices[|slices| - 1]
  }

  /** Of the bars between the first and last boundary, all are evaluated but at most 49 for each window
      passed over; with none passed over the evaluated bars are exactly those. */
  lemma {:induction false} FewBarsPassedOver(ts: seq<int>, segments: seq<Segment>, first: int, limit: int, n: nat)
    requires Sorted(ts) && Windows(segments, first, limit) && n <= |segments|
    ensures |Used(ts, segments, n)| <= n
    ensures |Flat(Used(ts, segments, n))| + 49 * (n - |Used(ts, segments, n)|) >= |Slice(ts, first, Boundary(first, n))|
    ensures |Used(ts, segments, n)| == n ==> Flat(Used(ts, segments, n)) == Slice(ts, first, Boundary(first, n))
  {
    hide Boundary, Count, Slice, Windows;
    ForwardBarsJoin(ts, segments, first, limit, n);
    if n > 0 {
      FewBarsPassedOver(ts, segments, first, limit, n - 1);
      ForwardBarsJoin(ts, segments, first, limit, n - 1);
      var before := Used(ts, segments, n - 1);
      var bars := Slice(ts, segments[n - 1].trainEnd, segments[n - 1].forwardEnd);
      assert (before + [bars])[..|before|] == before;
      assert before + [] == before;
    }
  }

  /** No bar is in both the training and the forward range of one segment. */
  lemma {:induction false} TrainApart(ts: seq<int>, s: Segment, t: int)
    ensures t in Slice(ts, s.start, s.trainEnd) ==> t !in Slice(ts, s.trainEnd, s.forwardEnd)
  {
    SliceHas(ts, s.start, s.trainEnd, t);
    SliceHas(ts, s.trainEnd, s.forwardEnd, t);
  }

  lemma {:induction false} SliceHas(ts: seq<int>, low: int, high: int, t: int)
    ensures t in Slice(ts, low, high) <==> t in ts && low <= t < high
  {
    if ts != [] {
      SliceHas(ts[..|ts| - 1], low, high, t);
    }
  }

  /******* Rolling against anchored *******/

  function Forwards(segments: seq<Segment>): (r: seq<(int, int)>)
    ensures |r| == |segments|
  {
    seq(|segments|, k requires 0 <= k < |segments| => (segments[k].trainEnd, segments[k].forwardEnd))
  }

  lemma SameCount(some: seq<Segment>, others: seq<Segment>, first: int, limit: int, otherLimit: int)
    requires Windows(some, first, limit) && Windows(others, first, otherLimit) && |some| == |others|
    ensures Forwards(some) == Forwards(others)
  {
    hide Boundary, Count;
    forall k | 0 <= k < |some| ensures Forwards(some)[k] == Forwards(others)[k] {
      assert some[k].trainEnd == Boundary(first, k) == others[k].trainEnd;
    }
  }

  /** The two loops evaluate the same windows exactly when neither has any, or when they start at the
      same boundary and none falls after the rolling limit and on or before the anchored one: the rolling
      loop starts from the earliest bar and stops at the end, or one past the last bar; the anchored loop
      starts from the first row and stops one past the end. */
  lemma SameForwards(rolling: seq<Segment>, anchored: seq<Segment>, first: int, start: int, rollingLimit: int, end: int)
    requires Windows(rolling, first, rollingLimit) && Windows(anchored, start, end + 1) && rollingLimit <= end
    ensures Forwards(rolling) == Forwards(anchored) <==>
            || (Boundary(first, 1) > rollingLimit && Boundary(start, 1) > end + 1)
            || (first == start
                && forall k: nat :: k > 0 && Boundary(first, k) <= end + 1 ==> Boundary(first, k) <= rollingLimit)
  {
    Fits(first, rollingLimit, 1);
    Fits(start, end + 1, 1);
    FirstBoundary(first);
    FirstBoundary(start);
    hide Boundary, Count;
    if rolling != [] && anchored != [] && first != start {
      assert Forwards(rolling)[0].0 == rolling[0].trainEnd == Boundary(first, 0);
      assert Forwards(anchored)[0].0 == anchored[0].trainEnd == Boundary(start, 0);
    } else if first == start {
      SameStart(rolling, anchored, first, rollingLimit, end);
    } else {
      assert |Forwards(rolling)| == |rolling| && |Forwards(anchored)| == |anchored|;
    }
  }

  lemma SameStart(rolling: seq<Segment>, anchored: seq<Segment>, first: int, rollingLimit: int, end: int)
    requires Windows(rolling, first, rollingLimit) && Windows(anchored, first, end + 1) && rollingLimit <= end
    ensures Forwards(rolling) == Forwards(anchored) <==>
            forall k: nat :: k > 0 && Boundary(first, k) <= end + 1 ==> Boundary(first, k) <= rollingLimit
    ensures rolling == [] && anchored == [] ==> Forwards(rolling) == Forwards(anchored)
  {
    var r, a := Count(first, rollingLimit), Count(first, end + 1);
    hide Boundary, Count;
    if r > 0 {
      Fits(first, rollingLimit, r);
      Fits(first, end + 1, r);
    }
    if a > 0 {
      Fits(first, rollingLimit, a);
      Fits(first, end + 1, a);
    }
    if r == a {
      SameCount(rolling, anchored, first, rollingLimit, end + 1);
      forall k: nat | k > 0 && Boundary(first, k) <= end + 1 ensures Boundary(first, k) <= rollingLimit {
        Fits(first, rollingLimit, k);
        Fits(first, end + 1, k);
      }
    }
  }

  /** The smallest difference: a table and an end one millisecond short of the first boundary give the
      anchored loop one window and the rolling loop none. */
  lemma OneWindowMore()
    ensures var end := TRAIN + STEP - 1;
            Count(MinOf([0, end]) + TRAIN, RollingLimit([0, end], end)) == 0 && Count(0 + TRAIN, end + 1) == 1
  {
    var end := TRAIN + STEP - 1;
    var ts := [0, end];
    assert ts[0] == 0 && ts[1] == end && ts[0] in ts && ts[1] in ts;
    assert MinOf(ts) == 0 && MaxOf(ts) == end;
    CountIs(TRAIN, end, 0);
    CountIs(TRAIN, end + 1, 1);
  }
}
