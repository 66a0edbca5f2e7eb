/** When the perpetual download is complete, decided on the server's history alone. The loop leaves off
    at a page with nothing finite on it, and at its page cap; both come down to the missing bars. */
module KlineGaps {
  import opened Common
  import opened Timeline
  import opened KlineCursor

  // One page can lead from bar i to just past the finite bar before j.
  predicate Hop(hist: seq<Rec>, i: nat, j: nat, limit: nat) {
    i < j <= |hist| && j <= i + limit && hist[j - 1].value.Some?
  }

  // So many finite bars, each within a page of the one before, lead from bar i past bar e.
  ghost predicate Chained(hist: seq<Rec>, i: nat, e: nat, limit: nat, pages: nat)
    decreases pages
  {
    i >= e || (pages > 0 && exists j: nat :: Hop(hist, i, j, limit) && Chained(hist, j, e, limit, pages - 1))
  }

  // Starting later, or with more pages, is no worse.
  lemma {:induction false} Later(hist: seq<Rec>, i: nat, i': nat, e: nat, limit: nat, pages: nat, pages': nat)
    requires i <= i' && pages <= pages' && Chained(hist, i, e, limit, pages)
    ensures Chained(hist, i', e, limit, pages')
    decreases pages
  {
    if i' < e {
      var j: nat :| Hop(hist, i, j, limit) && Chained(hist, j, e, limit, pages - 1);
      if j <= i' {
        Later(hist, j, i', e, limit, pages - 1, pages');
      } else {
        Later(hist, j, j, e, limit, pages - 1, pages' - 1);
        assert Hop(hist, i', j, limit);
      }
    }
  }

  /** Taking the last finite bar of every page gets as far as any choice of bars. */
  lemma {:induction false} ScanChained(hist: seq<Rec>, i: nat, e: nat, end: int, limit: nat, pages: nat)
    requires Ascending(hist) && limit > 0 && i <= |hist| && e <= |hist|
    requires e > i ==> hist[e - 1].value.Some? && hist[e - 1].ts <= end
    ensures Scan(hist, i, end, limit, pages).1 >= e <==> Chained(hist, i, e, limit, pages)
    decreases pages
  {
    if i < e && pages > 0 {
      var n := PageEnd(hist, i, limit);
      var j := PastFinite(hist, i, n);
      hide PastFinite;
      assert forall j': nat :: Hop(hist, i, j', limit) ==> j' <= j && j > i by {
        forall j': nat | Hop(hist, i, j', limit) ensures j' <= j {
          assert hist[j' - 1].value.Some? && j' - 1 < n;
        }
      }
      if j > i {
        assert Hop(hist, i, j, limit);
        if hist[j - 1].ts >= end {
          assert Chained(hist, j, e, limit, pages - 1);
        } else {
          ScanChained(hist, j, e, end, limit, pages - 1);
          BestHop(hist, i, j, e, limit, pages);
        }
      }
    }
  }

  lemma BestHop(hist: seq<Rec>, i: nat, j: nat, e: nat, limit: nat, pages: nat)
    requires i < e && pages > 0 && Hop(hist, i, j, limit) && forall j': nat :: Hop(hist, i, j', limit) ==> j' <= j
    ensures Chained(hist, i, e, limit, pages) <==> Chained(hist, j, e, limit, pages - 1)
  {
    if Chained(hist, i, e, limit, pages) {
      var j': nat :| Hop(hist, i, j', limit) && Chained(hist, j', e, limit, pages - 1);
      Later(hist, j', j, e, limit, pages - 1, pages - 1);
    }
  }

  // One past the last finite bar not after the end.
  function PastWanted(hist: seq<Rec>, end: int): (e: nat)
    ensures e <= |hist|
  {
    PastFinite(hist, 0, From(hist, end + 1))
  }

  lemma MissedIs(hist: seq<Rec>, r: nat, end: int)
    requires Ascending(hist) && r <= |hist|
    ensures Missed(hist, r, end) <==> r < PastWanted(hist, end)
    ensures var e := PastWanted(hist, end); e > 0 ==> hist[e - 1].value.Some? && hist[e - 1].ts <= end
  {
    var n, e := From(hist, end + 1), PastWanted(hist, end);
    FromSplits(hist, end + 1);
    hide From, PastFinite;
    if r < e {
      assert hist[e - 1].value.Some? && hist[e - 1].ts <= end;
    }
  }

  /** The download is exactly the server's finite bars in [since, end] exactly when at most 500 of its
      finite bars, each within a page of the one before, lead from the first bar to the last wanted. */
  lemma DownloadComplete(hist: seq<Rec>, since: int, end: int, limit: nat)
    requires Ascending(hist) && limit > 0
    ensures Downloaded(hist, since, end, limit) == Wanted(hist, since, end) <==>
            Chained(hist, From(hist, since), PastWanted(hist, end), limit, MAX_PAGES)
  {
    hide *;
    var i, e := From(hist, since), PastWanted(hist, end);
    DownloadStops(hist, since, end, limit);
    MissedIs(hist, Scan(hist, i, end, limit, MAX_PAGES).1, end);
    ScanChained(hist, i, e, end, limit, MAX_PAGES);
  }

  /******* Runs of missing bars *******/

  // A whole page of consecutive bars without finite values.
  ghost predicate Gap(hist: seq<Rec>, a: nat, limit: nat) {
    a + limit <= |hist| && forall k :: a <= k < a + limit ==> hist[k].value.None?
  }

  ghost predicate NoGap(hist: seq<Rec>, i: nat, e: nat, limit: nat) {
    forall a: nat :: i <= a && a + limit <= e ==> !Gap(hist, a, limit)
  }

  lemma {:induction false} GapStops(hist: seq<Rec>, i: nat, a: nat, e: nat, limit: nat, pages: nat)
    requires i <= a < e && Gap(hist, a, limit)
    ensures !Chained(hist, i, e, limit, pages)
    decreases pages
  {
    if pages > 0 {
      forall j: nat | Hop(hist, i, j, limit) ensures !Chained(hist, j, e, limit, pages - 1) {
        GapStops(hist, j, a, e, limit, pages - 1);
      }
    }
  }

  lemma NextHop(hist: seq<Rec>, i: nat, e: nat, limit: nat) returns (j: nat)
    requires limit > 0 && i < e <= |hist| && hist[e - 1].value.Some? && NoGap(hist, i, e, limit)
    ensures Hop(hist, i, j, limit) && (j >= e || j + limit > i + limit)
    ensures j < e ==> forall k :: j <= k < i + limit && k < |hist| ==> hist[k].value.None?
  {
    if i + limit >= e {
      j := e;
    } else {
      assert !Gap(hist, i, limit);
      j := PastFinite(hist, i, i + limit);
    }
  }

  lemma {:induction false} NoGapChains(hist: seq<Rec>, i: nat, e: nat, limit: nat, pages: nat)
    requires limit > 0 && e <= |hist| && (i < e ==> hist[e - 1].value.Some?) && pages >= e - i
        && NoGap(hist, i, e, limit)
    ensures Chained(hist, i, e, limit, pages)
    decreases pages
  {
    if i < e {
      var j := NextHop(hist, i, e, limit);
      NoGapChains(hist, j, e, limit, pages - 1);
    }
  }

  // Two pages get past a page and one bar more.
  lemma {:induction false} TwoPages(hist: seq<Rec>, i: nat, e: nat, limit: nat, k: nat)
    requires limit > 0 && e <= |hist| && (i < e ==> hist[e - 1].value.Some?) && NoGap(hist, i, e, limit)
    requires e - i <= Capacity(k, limit + 1)
    ensures Chained(hist, i, e, limit, 2 * k)
    decreases k
  {
    if i < e {
      var j := NextHop(hist, i, e, limit);
      if j < e {
        var j' := NextHop(hist, j, e, limit);
        if j' < e {
          assert j' > i + limit;
          TwoPages(hist, j', e, limit, k - 1);
        }
        assert Chained(hist, j', e, limit, 2 * k - 2);
        assert Chained(hist, j, e, limit, 2 * k - 1);
      } else {
        assert Chained(hist, j, e, limit, 2 * k - 1);
      }
    }
  }

  lemma GapDecides(hist: seq<Rec>, i: nat, e: nat, limit: nat, pages: nat)
    requires limit > 0 && e <= |hist| && (i < e ==> hist[e - 1].value.Some?)
    ensures Chained(hist, i, e, limit, pages) ==> NoGap(hist, i, e, limit)
    ensures e - i <= pages && NoGap(hist, i, e, limit) ==> Chained(hist, i, e, limit, pages)
  {
    if a: nat :| i <= a && a + limit <= e && Gap(hist, a, limit) {
      GapStops(hist, i, a, e, limit, pages);
    } else if e - i <= pages {
      NoGapChains(hist, i, e, limit, pages);
    }
  }

  /** A whole page of missing bars before the last wanted one always loses bars. When no more bars are
      between than there are pages, nothing else does. */
  lemma DownloadGaps(hist: seq<Rec>, since: int, end: int, limit: nat)
    requires Ascending(hist) && limit > 0
    ensures var i, e := From(hist, since), PastWanted(hist, end);
            && (Downloaded(hist, since, end, limit) == Wanted(hist, since, end) ==> NoGap(hist, i, e, limit))
            && (e - i <= MAX_PAGES ==>
                  (Downloaded(hist, since, end, limit) == Wanted(hist, since, end) <==> NoGap(hist, i, e, limit)))
  {
    hide *;
    DownloadComplete(hist, since, end, limit);
    MissedIs(hist, 0, end);
    GapDecides(hist, From(hist, since), PastWanted(hist, end), limit, MAX_PAGES);
  }

  /** Without such a gap, 250 times one bar more than a page can be downloaded for certain. */
  lemma DownloadSuffices(hist: seq<Rec>, since: int, end: int, limit: nat)
    requires Ascending(hist) && limit > 0 && NoGap(hist, From(hist, since), PastWanted(hist, end), limit)
    requires PastWanted(hist, end) - From(hist, since) <= 250 * (limit + 1)
    ensures Downloaded(hist, since, end, limit) == Wanted(hist, since, end)
  {
    var i, e := From(hist, since), PastWanted(hist, end);
    DownloadComplete(hist, since, end, limit);
    MissedIs(hist, 0, end);
    CapacityIs(250, limit + 1);
    assert i < e ==> hist[e - 1].value.Some?;
    assert MAX_PAGES == 2 * 250;
    hide *;
    TwoPages(hist, i, e, limit, 250);
    assert Chained(hist, i, e, limit, MAX_PAGES);
  }

  // A page of missing bars and one good one.
  function OnePageOut(limit: nat): (hist: seq<Rec>)
    ensures Ascending(hist)
  {
    seq(limit + 1, k requires 0 <= k <= limit => Rec(k, if k < limit then None else Some(1.0)))
  }

  lemma OnePageOutScan(limit: nat)
    requires limit > 0
    ensures var hist := OnePageOut(limit);
            From(hist, 0) == 0 && Scan(hist, 0, limit, limit, MAX_PAGES).1 == 0
  {
    var hist := OnePageOut(limit);
    FromIs(hist, 0, 0);
    hide From;
    assert PageEnd(hist, 0, limit) == limit;
  }

  lemma OnePageOutFinite(limit: nat)
    requires limit > 0
    ensures Finite(OnePageOut(limit)) == [Rec(limit, Some(1.0))]
  {
    var hist := OnePageOut(limit);
    FiniteNone(hist[..limit]);
    FiniteEndsWith(hist[..limit], hist[limit]);
    hide Finite;
    assert hist == hist[..limit] + [hist[limit]];
  }

  /** With any page size, the good bar after a page of missing ones is lost without an error. */
  lemma GoodBarLost(limit: nat)
    requires limit > 0
    ensures var hist := OnePageOut(limit);
            Downloaded(hist, 0, limit, limit) == [] && Wanted(hist, 0, limit) == [Rec(limit, Some(1.0))]
  {
    var hist := OnePageOut(limit);
    OnePageOutScan(limit);
    OnePageOutFinite(limit);
    UpToAll([Rec(limit, Some(1.0))], limit);
    UpToAll([], limit);
    NothingCollected(hist, 0);
    hide From, Scan, Finite, UpTo, OnePageOut;
    assert hist[0..] == hist;
  }
}
