/** The cursor-driven download of perpetual bars, with its end guard and page cap. */
module KlineCursor {
  import opened Common
  import opened Timeline

  const MAX_PAGES: nat := 500

  function Finite(s: seq<Rec>): seq<Rec> {
    if s == [] then [] else Finite(s[..|s| - 1]) + if s[|s| - 1].value.Some? then [s[|s| - 1]] else []
  }

  function UpTo(s: seq<Rec>, end: int): seq<Rec> {
    if s == [] then [] else UpTo(s[..|s| - 1], end) + if s[|s| - 1].ts <= end then [s[|s| - 1]] else []
  }

  // The first bar at or after the cursor.
  function From(hist: seq<Rec>, cursor: int): (i: nat)
    ensures i <= |hist|
    ensures i > 0 ==> hist[i - 1].ts < cursor
  {
    if hist == [] || hist[|hist| - 1].ts < cursor then |hist| else From(hist[..|hist| - 1], cursor)
  }

  lemma {:induction false} FromIs(hist: seq<Rec>, cursor: int, i: nat)
    requires Ascending(hist) && i <= |hist| && (i > 0 ==> hist[i - 1].ts < cursor)
        && (i < |hist| ==> hist[i].ts >= cursor)
    ensures From(hist, cursor) == i
  {
    if i < |hist| {
      FromIs(hist[..|hist| - 1], cursor, i);
    }
  }

  // The page contract: the oldest limit bars at or after the cursor, in order.
  function Page(hist: seq<Rec>, cursor: int, limit: nat): seq<Rec> {
    var i := From(hist, cursor);
    hist[i..if i + limit < |hist| then i + limit else |hist|]
  }

  // One past the last finite bar of hist[..n] at or after i, or i when there is none.
  function PastFinite(hist: seq<Rec>, i: nat, n: nat): (j: nat)
    requires i <= n <= |hist|
    ensures i <= j <= n
    ensures j > i ==> hist[j - 1].value.Some?
    ensures forall k :: j <= k < n ==> hist[k].value.None?
  {
    if i == n || hist[n - 1].value.Some? then n else PastFinite(hist, i, n - 1)
  }

  datatype Stop = ReachedEnd | NoMoreBars | NothingFinite | PageCap

  function PageEnd(hist: seq<Rec>, i: nat, limit: nat): nat {
    if i + limit < |hist| then i + limit else |hist|
  }

  // Where the loop stops, and why: it has then collected the finite bars before that index.
  function Scan(hist: seq<Rec>, i: nat, end: int, limit: nat, pages: nat): (r: (Stop, nat))
    requires i <= |hist|
    ensures i <= r.1 <= |hist|
    decreases pages
  {
    if pages == 0 then (PageCap, i)
    else
      var n := PageEnd(hist, i, limit);
      if n == i then (NoMoreBars, i)
      else
        var j := PastFinite(hist, i, n);
        if j == i then (NothingFinite, i)
        else if hist[j - 1].ts >= end then (ReachedEnd, j)
        else Scan(hist, j, end, limit, pages - 1)
  }

  // What the download returns: the finite bars collected, none after the end.
  function Downloaded(hist: seq<Rec>, since: int, end: int, limit: nat): seq<Rec> {
    var i := From(hist, since);
    UpTo(Finite(hist[i..Scan(hist, i, end, limit, MAX_PAGES).1]), end)
  }

  lemma {:induction false} FiniteConcat(a: seq<Rec>, b: seq<Rec>)
    ensures Finite(a + b) == Finite(a) + Finite(b)
  {
    if b == [] {
      assert a + b == a;
    } else {
      assert (a + b)[..|a + b| - 1] == a + b[..|b| - 1];
      FiniteConcat(a, b[..|b| - 1]);
    }
  }

  lemma {:induction false} FiniteNone(s: seq<Rec>)
    requires forall k :: 0 <= k < |s| ==> s[k].value.None?
    ensures Finite(s) == []
  {
    if s != [] {
      FiniteNone(s[..|s| - 1]);
    }
  }

  lemma {:induction false} FiniteIs(s: seq<Rec>)
    ensures forall x :: x in Finite(s) <==> x in s && x.value.Some?
  {
    if s != [] {
      FiniteIs(s[..|s| - 1]);
      assert s == s[..|s| - 1] + [s[|s| - 1]];
    }
  }

  lemma {:induction false} FiniteAscends(s: seq<Rec>)
    requires Ascending(s)
    ensures Ascending(Finite(s))
  {
    if s != [] {
      var before := s[..|s| - 1];
      PrefixBelow(s);
      hide Ascending;
      FiniteAscends(before);
      FiniteIs(before);
      AppendAscending(Finite(before), s[|s| - 1]);
      assert Finite(before) + [] == Finite(before);
    }
  }

  lemma {:induction false} UpToIs(s: seq<Rec>, end: int)
    ensures forall x :: x in UpTo(s, end) <==> x in s && x.ts <= end
  {
    if s != [] {
      UpToIs(s[..|s| - 1], end);
      assert s == s[..|s| - 1] + [s[|s| - 1]];
    }
  }

  lemma {:induction false} UpToAscends(s: seq<Rec>, end: int)
    requires Ascending(s)
    ensures Ascending(UpTo(s, end))
  {
    if s != [] {
      var before := s[..|s| - 1];
      PrefixBelow(s);
      hide Ascending;
      UpToAscends(before, end);
      UpToIs(before, end);
      AppendAscending(UpTo(before, end), s[|s| - 1]);
      assert UpTo(before, end) + [] == UpTo(before, end);
    }
  }

  lemma {:induction false} UpToAll(s: seq<Rec>, end: int)
    requires forall i :: 0 <= i < |s| ==> s[i].ts <= end
    ensures UpTo(s, end) == s
  {
    if s != [] {
      UpToAll(s[..|s| - 1], end);
    }
  }

  // A page's finite bars, and the index they reach.
  lemma PageFinite(hist: seq<Rec>, i: nat, n: nat)
    requires i <= n <= |hist|
    ensures Finite(hist[i..n]) == Finite(hist[i..PastFinite(hist, i, n)])
    ensures PastFinite(hist, i, n) == i <==> Finite(hist[i..n]) == []
    ensures PastFinite(hist, i, n) > i ==>
        Finite(hist[i..n])[|Finite(hist[i..n])| - 1] == hist[PastFinite(hist, i, n) - 1]
  {
    var j := PastFinite(hist, i, n);
    hide PastFinite, Finite;
    FiniteTrims(hist, i, j, n);
    if j > i {
      FiniteLast(hist, i, j);
    } else {
      NothingCollected(hist, i);
    }
  }

  lemma FiniteTrims(hist: seq<Rec>, i: nat, j: nat, n: nat)
    requires i <= j <= n <= |hist| && forall k :: j <= k < n ==> hist[k].value.None?
    ensures Finite(hist[i..n]) == Finite(hist[i..j])
  {
    FiniteNone(hist[j..n]);
    hide Finite;
    assert hist[i..n] == hist[i..j] + hist[j..n];
    FiniteConcat(hist[i..j], hist[j..n]);
    assert Finite(hist[i..j]) + [] == Finite(hist[i..j]);
  }

  lemma FiniteLast(hist: seq<Rec>, i: nat, j: nat)
    requires i < j <= |hist| && hist[j - 1].value.Some?
    ensures Finite(hist[i..j]) != [] && Finite(hist[i..j])[|Finite(hist[i..j])| - 1] == hist[j - 1]
  {
    hide Finite;
    assert hist[i..j] == hist[i..j - 1] + [hist[j - 1]];
    FiniteEndsWith(hist[i..j - 1], hist[j - 1]);
  }

  lemma FiniteEndsWith(s: seq<Rec>, r: Rec)
    requires r.value.Some?
    ensures Finite(s + [r]) == Finite(s) + [r]
  {
    assert (s + [r])[..|s|] == s;
  }

  lemma PageExtends(hist: seq<Rec>, i0: nat, i: nat, n: nat)
    requires i0 <= i <= n <= |hist|
    ensures Finite(hist[i0..i]) + Finite(hist[i..n]) == Finite(hist[i0..PastFinite(hist, i, n)])
  {
    PageFinite(hist, i, n);
    var j := PastFinite(hist, i, n);
    assert hist[i0..j] == hist[i0..i] + hist[i..j];
    FiniteConcat(hist[i0..i], hist[i..j]);
  }

  lemma FinitePrefix(hist: seq<Rec>, i: nat, j: nat)
    requires Ascending(hist) && i <= j <= |hist|
    ensures Ascending(Finite(hist[i..j]))
    ensures j > i ==> forall k :: 0 <= k < |Finite(hist[i..j])| ==> Finite(hist[i..j])[k].ts <= hist[j - 1].ts
  {
    FiniteIs(hist[i..j]);
    FiniteAscends(hist[i..j]);
    forall k | 0 <= k < |Finite(hist[i..j])| ensures j > i && Finite(hist[i..j])[k].ts <= hist[j - 1].ts {
      var x := Finite(hist[i..j])[k];
      assert x in Finite(hist[i..j]);
      var m :| 0 <= m < |hist[i..j]| && hist[i..j][m] == x;
      assert x == hist[i + m];
    }
  }

  method FetchPerpKlines(hist: seq<Rec>, since0: int, end: int, limit: nat) returns (rows: seq<Rec>, stop: Stop)
    requires Ascending(hist) && limit > 0
    ensures stop == Scan(hist, From(hist, since0), end, limit, MAX_PAGES).0
    ensures rows == Downloaded(hist, since0, end, limit)
    ensures Ascending(rows)
  {
    hide Finite, PastFinite, UpTo, From, Ascending, PageEnd, Scan, Page, Downloaded, Tidy;
    DownloadedIs(hist, since0, end, limit);
    var since, all, pages := since0, [], 0;
    ghost var i0 := From(hist, since0);
    ghost var i := i0;
    ghost var result := Scan(hist, i0, end, limit, MAX_PAGES);
    NothingCollected(hist, i0);
    while true
      invariant pages <= MAX_PAGES && i0 <= i == From(hist, since) <= |hist|
      invariant all == Finite(hist[i0..i])
      invariant i > i0 ==> hist[i - 1].ts < end
      invariant result == Scan(hist, i, end, limit, MAX_PAGES - pages)
      decreases MAX_PAGES - pages
    {
      ScanUnfold(hist, i, end, limit, MAX_PAGES - pages);
      if pages + 1 > MAX_PAGES { stop := PageCap; break; }
      pages := pages + 1;
      var bars := Page(hist, since, limit);
      ghost var n := PageEnd(hist, i, limit);
      PageIs(hist, since, limit);
      if bars == [] { stop := NoMoreBars; break; }
      PageFinite(hist, i, n);
      PageExtends(hist, i0, i, n);
      bars := Finite(bars);
      if bars == [] { stop := NothingFinite; break; }
      ghost var j := PastFinite(hist, i, n);
      all := all + bars;
      var last := bars[|bars| - 1].ts;
      CursorNext(hist, j);
      if last >= end {
        stop := ReachedEnd;
        Finishes(hist, i0, j, end);
        all := UpTo(all, end);
        rows := Tidy(all);
        return;
      }
      i := j;
      since := last + 1;
    }
    assert result.1 == i;
    Finishes(hist, i0, i, end);
    Tidied(hist, i0, i, end);
    rows := Tidy(all);
  }

  lemma DownloadedIs(hist: seq<Rec>, since: int, end: int, limit: nat)
    ensures Downloaded(hist, since, end, limit) ==
            UpTo(Finite(hist[From(hist, since)..Scan(hist, From(hist, since), end, limit, MAX_PAGES).1]), end)
  {
  }

  lemma ScanUnfold(hist: seq<Rec>, i: nat, end: int, limit: nat, pages: nat)
    requires i <= |hist|
    ensures pages == 0 ==> Scan(hist, i, end, limit, pages) == (PageCap, i)
    ensures pages > 0 ==>
              var n := PageEnd(hist, i, limit);
              && (n == i ==> Scan(hist, i, end, limit, pages) == (NoMoreBars, i))
              && (n != i ==> var j := PastFinite(hist, i, n);
                             && (j == i ==> Scan(hist, i, end, limit, pages) == (NothingFinite, i))
                             && (j != i && hist[j - 1].ts >= end ==>
                               Scan(hist, i, end, limit, pages) == (ReachedEnd, j))
                             && (j != i && hist[j - 1].ts < end ==>
                               Scan(hist, i, end, limit, pages) == Scan(hist, j, end, limit, pages - 1)))
  {
  }

  lemma NothingCollected(hist: seq<Rec>, i: nat)
    requires i <= |hist|
    ensures Finite(hist[i..i]) == []
  {
    assert hist[i..i] == [];
  }

  lemma PageIs(hist: seq<Rec>, since: int, limit: nat)
    requires limit > 0
    ensures From(hist, since) <= PageEnd(hist, From(hist, since), limit) <= |hist|
    ensures Page(hist, since, limit) == hist[From(hist, since)..PageEnd(hist, From(hist, since), limit)]
    ensures Page(hist, since, limit) == [] <==> PageEnd(hist, From(hist, since), limit) == From(hist, since)
  {
  }

  lemma Finishes(hist: seq<Rec>, i0: nat, i: nat, end: int)
    requires Ascending(hist) && i0 <= i <= |hist|
    ensures Ascending(UpTo(Finite(hist[i0..i]), end))
    ensures Tidy(UpTo(Finite(hist[i0..i]), end)) == UpTo(Finite(hist[i0..i]), end)
  {
    FinitePrefix(hist, i0, i);
    UpToAscends(Finite(hist[i0..i]), end);
    TidyAscending(UpTo(Finite(hist[i0..i]), end));
  }

  // Stopping before the end, nothing collected lies beyond it.
  lemma Tidied(hist: seq<Rec>, i0: nat, i: nat, end: int)
    requires Ascending(hist) && i0 <= i <= |hist| && (i > i0 ==> hist[i - 1].ts < end)
    ensures UpTo(Finite(hist[i0..i]), end) == Finite(hist[i0..i])
  {
    FinitePrefix(hist, i0, i);
    NothingCollected(hist, i0);
    UpToAll(Finite(hist[i0..i]), end);
  }

  lemma CursorNext(hist: seq<Rec>, j: nat)
    requires Ascending(hist) && 0 < j <= |hist|
    ensures From(hist, hist[j - 1].ts + 1) == j
  {
    FromIs(hist, hist[j - 1].ts + 1, j);
  }

  /******* Completeness *******/

  // Every finite bar the server has from since through end.
  function Wanted(hist: seq<Rec>, since: int, end: int): seq<Rec> {
    UpTo(Finite(hist[From(hist, since)..]), end)
  }

  lemma InTail(hist: seq<Rec>, i: nat, x: Rec)
    requires i <= |hist|
    ensures x in hist[i..] <==> exists k :: i <= k < |hist| && hist[k] == x
  {
    if x in hist[i..] {
      var k :| 0 <= k < |hist[i..]| && hist[i..][k] == x;
      assert hist[i + k] == x;
    }
    if k :| i <= k < |hist| && hist[k] == x {
      assert hist[i..][k - i] == x;
    }
  }

  // The bars from the cursor on.
  lemma TailHas(hist: seq<Rec>, since: int)
    requires Ascending(hist)
    ensures var i := From(hist, since); forall x :: x in hist[i..] <==> x in hist && since <= x.ts
  {
    FromSplits(hist, since);
    var i := From(hist, since);
    hide From, Ascending;
    forall x ensures x in hist[i..] <==> x in hist && since <= x.ts {
      InTail(hist, i, x);
    }
  }

  lemma TailAscends(hist: seq<Rec>, i: nat)
    requires Ascending(hist) && i <= |hist|
    ensures Ascending(hist[i..])
  {
  }

  /** Wanted are the bars with finite values between the two stamps, both included, in order; and what the
      download returns is a first part of them. */
  lemma WantedExactly(hist: seq<Rec>, since: int, end: int, limit: nat)
    requires Ascending(hist)
    ensures forall x :: x in Wanted(hist, since, end) <==> x in hist && x.value.Some? && since <= x.ts <= end
    ensures Ascending(Wanted(hist, since, end))
    ensures Downloaded(hist, since, end, limit) <= Wanted(hist, since, end)
  {
    var i := From(hist, since);
    hide *;
    TailHas(hist, since);
    TailAscends(hist, i);
    WantedFrom(hist, since, end);
    DownloadedIs(hist, since, end, limit);
    FiniteIs(hist[i..]);
    UpToIs(Finite(hist[i..]), end);
    WantedSplits(hist, i, Scan(hist, i, end, limit, MAX_PAGES).1, end);
    FiniteAscends(hist[i..]);
    UpToAscends(Finite(hist[i..]), end);
  }

  lemma {:induction false} UpToConcat(a: seq<Rec>, b: seq<Rec>, end: int)
    ensures UpTo(a + b, end) == UpTo(a, end) + UpTo(b, end)
  {
    if b == [] {
      assert a + b == a;
    } else {
      assert (a + b)[..|a + b| - 1] == a + b[..|b| - 1];
      UpToConcat(a, b[..|b| - 1], end);
    }
  }

  // One page: the scan stops there, or goes on behind its last finite bar.
  lemma ScanOnce(hist: seq<Rec>, i: nat, end: int, limit: nat, pages: nat) returns (j: nat)
    requires i <= |hist| && limit > 0 && pages > 0
    ensures j <= |hist|
    ensures var r := Scan(hist, i, end, limit, pages);
            || (r == (NoMoreBars, i) && i == |hist|)
            || r == (NothingFinite, i)
            || (r == (ReachedEnd, j) && j > 0 && hist[j - 1].ts >= end)
            || r == Scan(hist, j, end, limit, pages - 1)
  {
    j := PastFinite(hist, i, PageEnd(hist, i, limit));
    hide PastFinite;
  }

  lemma {:induction false} ScanStops(hist: seq<Rec>, i: nat, end: int, limit: nat, pages: nat)
    requires i <= |hist| && limit > 0
    ensures var (stop, r) := Scan(hist, i, end, limit, pages);
            && (stop == NoMoreBars ==> r == |hist|)
            && (stop == ReachedEnd ==> r > 0 && hist[r - 1].ts >= end)
    decreases pages
  {
    if pages > 0 {
      var j := ScanOnce(hist, i, end, limit, pages);
      hide Scan;
      ScanStops(hist, j, end, limit, pages - 1);
    }
  }

  ghost predicate Missed(hist: seq<Rec>, r: nat, end: int) {
    exists k :: r <= k < |hist| && hist[k].value.Some? && hist[k].ts <= end
  }

  lemma TailMissed(hist: seq<Rec>, r: nat, end: int)
    requires r <= |hist|
    ensures UpTo(Finite(hist[r..]), end) != [] <==> Missed(hist, r, end)
  {
    FiniteIs(hist[r..]);
    UpToIs(Finite(hist[r..]), end);
    var tail := UpTo(Finite(hist[r..]), end);
    if tail != [] {
      assert tail[0] in tail && tail[0] in hist[r..];
      var k :| 0 <= k < |hist[r..]| && hist[r..][k] == tail[0];
      assert hist[r + k] == tail[0];
    }
    if k :| r <= k < |hist| && hist[k].value.Some? && hist[k].ts <= end {
      assert hist[r..][k - r] == hist[k];
      assert hist[k] in tail;
    }
  }

  // The download is exactly the server's finite bars in [since, end] unless it stopped short of one;
  // it can do so only at the page cap or on a page with nothing finite on it.
  lemma DownloadStops(hist: seq<Rec>, since: int, end: int, limit: nat)
    requires Ascending(hist) && limit > 0
    ensures var (stop, r) := Scan(hist, From(hist, since), end, limit, MAX_PAGES);
            && (Downloaded(hist, since, end, limit) == Wanted(hist, since, end) <==> !Missed(hist, r, end))
            && (stop == ReachedEnd || stop == NoMoreBars ==> !Missed(hist, r, end))
  {
    var i := From(hist, since);
    var (stop, r) := Scan(hist, i, end, limit, MAX_PAGES);
    hide *;
    ScanStops(hist, i, end, limit, MAX_PAGES);
    DownloadedIs(hist, since, end, limit);
    WantedFrom(hist, since, end);
    WantedSplits(hist, i, r, end);
    TailMissed(hist, r, end);
    SameWithRest(UpTo(Finite(hist[i..r]), end), UpTo(Finite(hist[r..]), end));
    if stop == ReachedEnd || stop == NoMoreBars {
      NoneLeft(hist, r, end);
    }
  }

  lemma WantedFrom(hist: seq<Rec>, since: int, end: int)
    ensures Wanted(hist, since, end) == UpTo(Finite(hist[From(hist, since)..]), end)
  {
  }

  lemma SameWithRest(a: seq<Rec>, b: seq<Rec>)
    ensures a + b == a <==> b == []
  {
    assert |a + b| == |a| + |b|;
  }

  lemma NoneLeft(hist: seq<Rec>, r: nat, end: int)
    requires Ascending(hist) && r <= |hist| && (r == |hist| || (r > 0 && hist[r - 1].ts >= end))
    ensures !Missed(hist, r, end)
  {
  }

  lemma WantedSplits(hist: seq<Rec>, i: nat, r: nat, end: int)
    requires i <= r <= |hist|
    ensures UpTo(Finite(hist[i..]), end) == UpTo(Finite(hist[i..r]), end) + UpTo(Finite(hist[r..]), end)
  {
    assert hist[i..] == hist[i..r] + hist[r..];
    FiniteConcat(hist[i..r], hist[r..]);
    UpToConcat(Finite(hist[i..r]), Finite(hist[r..]), end);
  }

  // Bars that so many full pages hold.
  function Capacity(pages: nat, limit: nat): nat {
    if pages == 0 then 0 else Capacity(pages - 1, limit) + limit
  }

  lemma {:induction false} CapacityIs(pages: nat, limit: nat)
    ensures Capacity(pages, limit) == pages * limit
  {
    if pages > 0 {
      CapacityIs(pages - 1, limit);
      assert pages * limit == (pages - 1) * limit + limit;
    }
  }

  ghost predicate AllFinite(hist: seq<Rec>) {
    forall k :: 0 <= k < |hist| ==> hist[k].value.Some?
  }

  // With nothing missing a value, the scan takes limit bars a page.
  lemma {:induction false} ScanReach(hist: seq<Rec>, i: nat, e: nat, end: int, limit: nat, pages: nat)
    requires Ascending(hist) && limit > 0 && i <= e <= |hist| && AllFinite(hist)
    requires forall k :: i <= k < |hist| ==> (hist[k].ts <= end <==> k < e)
    ensures Scan(hist, i, end, limit, pages).1 >= e <==> e - i <= Capacity(pages, limit)
    decreases pages
  {
    if pages > 0 {
      var n := PageEnd(hist, i, limit);
      if n > i {
        assert PastFinite(hist, i, n) == n;
        hide PastFinite;
        assert n < |hist| ==> hist[n].ts > hist[n - 1].ts;
        if hist[n - 1].ts < end {
          ScanReach(hist, n, e, end, limit, pages - 1);
        }
      }
    }
  }

  lemma {:induction false} FiniteAll(s: seq<Rec>)
    requires forall k :: 0 <= k < |s| ==> s[k].value.Some?
    ensures Finite(s) == s
  {
    if s != [] {
      FiniteAll(s[..|s| - 1]);
    }
  }

  lemma {:induction false} FromSplits(hist: seq<Rec>, cursor: int)
    requires Ascending(hist)
    ensures forall k :: 0 <= k < |hist| ==> (hist[k].ts < cursor <==> k < From(hist, cursor))
  {
    if hist != [] && hist[|hist| - 1].ts >= cursor {
      FromSplits(hist[..|hist| - 1], cursor);
    }
  }

  // The bars wanted, as a stretch of the server's history.
  lemma WantedIs(hist: seq<Rec>, since: int, end: int)
    requires Ascending(hist) && since <= end + 1 && AllFinite(hist)
    ensures From(hist, since) <= From(hist, end + 1)
    ensures Wanted(hist, since, end) == hist[From(hist, since)..From(hist, end + 1)]
  {
    FromSplits(hist, since);
    FromSplits(hist, end + 1);
    var i, e := From(hist, since), From(hist, end + 1);
    assert e == |hist| || hist[e].ts >= end + 1;
    WantedStretch(hist, i, e, end);
  }

  lemma FiniteTail(hist: seq<Rec>, i: nat)
    requires i <= |hist| && AllFinite(hist)
    ensures Finite(hist[i..]) == hist[i..]
  {
    FiniteAll(hist[i..]);
  }

  lemma WantedStretch(hist: seq<Rec>, i: nat, e: nat, end: int)
    requires i <= e <= |hist| && AllFinite(hist)
    requires forall k :: 0 <= k < |hist| ==> (hist[k].ts < end + 1 <==> k < e)
    ensures UpTo(Finite(hist[i..]), end) == hist[i..e]
  {
    var before, after := hist[i..e], hist[e..];
    hide *;
    FiniteTail(hist, i);
    assert hist[i..] == before + after;
    forall k | 0 <= k < |before| ensures before[k].ts <= end {
      assert before[k] == hist[i + k];
    }
    forall k | 0 <= k < |after| ensures after[k].ts > end {
      assert after[k] == hist[e + k];
    }
    UpToConcat(before, after, end);
    UpToAll(before, end);
    UpToNone(after, end);
    assert before + [] == before;
  }

  lemma {:induction false} UpToNone(s: seq<Rec>, end: int)
    requires forall i :: 0 <= i < |s| ==> s[i].ts > end
    ensures UpTo(s, end) == []
  {
    if s != [] {
      UpToNone(s[..|s| - 1], end);
    }
  }

  /** When every bar has its values, the download is complete exactly when no more bars are wanted
      than 500 pages hold. */
  lemma DownloadCapacity(hist: seq<Rec>, since: int, end: int, limit: nat)
    requires Ascending(hist) && limit > 0 && since <= end + 1 && AllFinite(hist)
    ensures Downloaded(hist, since, end, limit) == Wanted(hist, since, end) <==>
        |Wanted(hist, since, end)| <= MAX_PAGES * limit
  {
    var i, e := From(hist, since), From(hist, end + 1);
    WantedIs(hist, since, end);
    FromSplits(hist, end + 1);
    FromSplits(hist, since);
    ScanReach(hist, i, e, end, limit, MAX_PAGES);
    CapacityIs(MAX_PAGES, limit);
    DownloadStops(hist, since, end, limit);
    hide Scan, From, Downloaded, Wanted, Capacity;
    ReachMissed(hist, Scan(hist, i, end, limit, MAX_PAGES).1, e, end);
  }

  lemma ReachMissed(hist: seq<Rec>, r: nat, e: nat, end: int)
    requires AllFinite(hist) && e <= |hist| && forall k :: 0 <= k < |hist| ==> (hist[k].ts < end + 1 <==> k < e)
    ensures Missed(hist, r, end) <==> r < e
  {
    if r < e {
      assert hist[r].value.Some? && hist[r].ts <= end;
    }
  }
}
