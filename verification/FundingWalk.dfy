/** The funding-history walk: hard 30-day windows over an endpoint that answers each closed window
    with its newest records, up to the page limit. */
module FundingWalk {
  import opened Common
  import opened Timeline

  const PAGE_MAX: nat := 200
  const WINDOW_MS: nat := 30 * 86_400_000
  const MAX_PAGES: nat := 500

  // Records strictly after lo and not after hi.
  function Count(hist: seq<Rec>, lo: int, hi: int): nat {
    if hist == [] then 0 else Count(hist[..|hist| - 1], lo, hi) + if lo < hist[|hist| - 1].ts <= hi then 1 else 0
  }

  // The endpoint's contract: of the closed window, the records with fewer than limit newer ones in it.
  predicate Served(hist: seq<Rec>, s: int, e: int, limit: nat, x: Rec) {
    x in hist && s <= x.ts <= e && Count(hist, x.ts, e) < limit
  }

  ghost predicate IsEndpoint(hist: seq<Rec>, limit: nat, endpoint: (int, int) -> seq<Rec>) {
    forall s, e, x :: x in endpoint(s, e) <==> Served(hist, s, e, limit, x)
  }

  function WindowStart(since: int, window: nat, k: nat): int {
    since + k * window
  }

  function WindowEnd(since: int, now: int, window: nat, k: nat): int {
    var e := WindowStart(since, window, k) + window;
    if e < now then e else now
  }

  // Windows the walk takes: the time to cover divided by the window, rounded up.
  function Windows(since: int, now: int, window: nat): nat
    requires window > 0
  {
    if since >= now then 0 else (now - since + window - 1) / window
  }

  lemma WindowsBound(since: int, now: int, window: nat, k: nat)
    requires window > 0
    ensures k < Windows(since, now, window) <==> since + k * window < now
    ensures WindowStart(since, window, k) == since + k * window
    ensures var e := since + k * window + window; WindowEnd(since, now, window, k) == if e < now then e else now
  {
    if since < now {
      CeilingBound(now - since, window, k);
    } else {
      assert k * window >= 0;
    }
  }

  lemma CeilingBound(length: nat, window: nat, k: nat)
    requires length > 0 && window > 0
    ensures k < (length + window - 1) / window <==> k * window < length
  {
    var n := (length + window - 1) / window;
    var rem := (length + window - 1) % window;
    assert n * window + rem == length + window - 1;
    Times(k, n, window);
    Times(n, k, window);
  }

  ghost predicate Fetched(hist: seq<Rec>, since: int, now: int, limit: nat, window: nat, n: nat, x: Rec) {
    exists k :: 0 <= k < n && Served(hist, WindowStart(since, window, k), WindowEnd(since, now, window, k), limit, x)
  }

  // What the walk returns: everything fetched by its windows, once each and in order.
  ghost predicate IsWalk(hist: seq<Rec>, since: int, now: int, limit: nat, window: nat, rows: seq<Rec>)
    requires window > 0
  {
    Ascending(rows) && forall x :: x in rows <==>
      Fetched(hist, since, now, limit, window, Windows(since, now, window), x)
  }

  method Fetch(hist: seq<Rec>, endpoint: (int, int) -> seq<Rec>, since0: int, now: int, limit: nat, window: nat)
    returns (r: Result<seq<Rec>, string>)
    requires window > 0 && Ascending(hist) && IsEndpoint(hist, limit, endpoint)
    ensures r.Err? <==> since0 + 500 * window < now
    ensures r.Err? <==> Windows(since0, now, window) > MAX_PAGES
    ensures r.Ok? ==> IsWalk(hist, since0, now, limit, window, r.value)
  {
    var since, pages, rows := since0, 0, [];
    WindowsBound(since0, now, window, 0);
    WindowsBound(since0, now, window, 500);
    while since < now
      invariant pages <= MAX_PAGES && since == WindowStart(since0, window, pages)
      invariant pages <= Windows(since0, now, window)
      invariant forall x :: x in rows <==> Fetched(hist, since0, now, limit, window, pages, x)
      decreases now - since
    {
      WindowsBound(since0, now, window, pages);
      pages := pages + 1;
      if pages > MAX_PAGES {
        return Err("pagination exceeded 500 pages");
      }
      var e := if now < since + window then now else since + window;
      var page := endpoint(since, e);
      FetchedNext(hist, since0, now, limit, window, pages);
      ghost var before := rows;
      for i := 0 to |page|
        invariant forall x :: x in rows <==> x in before || x in page[..i]
      {
        rows := rows + [page[i]];
      }
      since := since + window;
    }
    WindowsBound(since0, now, window, pages);
    TidyFetched(hist, since0, now, limit, window, rows);
    r := Ok(Tidy(rows));
  }

  lemma TidyFetched(hist: seq<Rec>, since: int, now: int, limit: nat, window: nat, rows: seq<Rec>)
    requires window > 0 && Ascending(hist)
    requires forall x :: x in rows <==> Fetched(hist, since, now, limit, window, Windows(since, now, window), x)
    ensures IsWalk(hist, since, now, limit, window, Tidy(rows))
  {
    hide Tidy;
    TidyKeeps(rows);
    forall x | x in rows ensures x in Tidy(rows) {
      assert HasStamp(rows, x.ts);
      var y :| y in Tidy(rows) && y.ts == x.ts;
      assert x in hist && y in hist;
    }
  }

  lemma FetchedNext(hist: seq<Rec>, since: int, now: int, limit: nat, window: nat, n: nat)
    requires n > 0
    ensures forall x :: Fetched(hist, since, now, limit, window, n, x) <==>
                        Fetched(hist, since, now, limit, window, n - 1, x) ||
                        Served(hist, WindowStart(since, window, n - 1), WindowEnd(since, now, window, n - 1), limit, x)
  {
  }

  /******* Completeness *******/

  lemma {:induction false} CountSplit(hist: seq<Rec>, a: int, b: int, c: int)
    requires a <= b <= c
    ensures Count(hist, a, c) == Count(hist, a, b) + Count(hist, b, c)
  {
    if hist != [] {
      CountSplit(hist[..|hist| - 1], a, b, c);
    }
  }

  lemma {:induction false} CountNone(hist: seq<Rec>, lo: int, hi: int)
    requires forall x :: x in hist ==> !(lo < x.ts <= hi)
    ensures Count(hist, lo, hi) == 0
  {
    if hist != [] {
      assert hist[|hist| - 1] in hist;
      CountNone(hist[..|hist| - 1], lo, hi);
    }
  }

  lemma {:induction false} CountOne(hist: seq<Rec>, x: Rec)
    requires Ascending(hist) && x in hist
    ensures Count(hist, x.ts - 1, x.ts) == 1
  {
    var before, last := hist[..|hist| - 1], hist[|hist| - 1];
    if x == last {
      forall y | y in before ensures y.ts < x.ts {
        var i :| 0 <= i < |before| && before[i] == y;
      }
      CountNone(before, x.ts - 1, x.ts);
    } else {
      assert x in before;
      CountOne(before, x);
      var i :| 0 <= i < |before| && before[i] == x;
    }
  }

  lemma {:induction false} Oldest(hist: seq<Rec>, lo: int, hi: int) returns (x: Rec)
    requires Ascending(hist) && Count(hist, lo, hi) > 0
    ensures x in hist && lo < x.ts <= hi && Count(hist, lo, x.ts - 1) == 0
  {
    var before, last := hist[..|hist| - 1], hist[|hist| - 1];
    if Count(before, lo, hi) > 0 {
      x := Oldest(before, lo, hi);
      var i :| 0 <= i < |before| && before[i] == x;
      assert x.ts < last.ts;
    } else {
      x := last;
      CountMore(before, lo, last.ts - 1, hi);
    }
  }

  lemma CountMore(hist: seq<Rec>, lo: int, mid: int, hi: int)
    requires mid <= hi && Count(hist, lo, hi) == 0
    ensures Count(hist, lo, mid) == 0
  {
    if lo <= mid {
      CountSplit(hist, lo, mid, hi);
    } else {
      CountNone(hist, lo, mid);
    }
  }

  // The records a window is the first to see: the stamp it shares with the window before is not among them.
  function FreshCount(hist: seq<Rec>, since: int, now: int, window: nat, k: nat): nat {
    Count(hist, if k == 0 then since - 1 else WindowStart(since, window, k), WindowEnd(since, now, window, k))
  }

  function Between(hist: seq<Rec>, lo: int, hi: int): seq<Rec> {
    if hist == [] then []
    else Between(hist[..|hist| - 1], lo, hi) + if lo <= hist[|hist| - 1].ts <= hi then [hist[|hist| - 1]] else []
  }

  lemma BeforeLast(hist: seq<Rec>, x: Rec)
    requires Ascending(hist) && hist != [] && x in hist[..|hist| - 1]
    ensures x.ts < hist[|hist| - 1].ts
  {
    var i :| 0 <= i < |hist| - 1 && hist[i] == x;
  }

  lemma {:induction false} BetweenIs(hist: seq<Rec>, lo: int, hi: int)
    requires Ascending(hist)
    ensures Ascending(Between(hist, lo, hi))
    ensures forall x :: x in Between(hist, lo, hi) <==> x in hist && lo <= x.ts <= hi
  {
    if hist != [] {
      var before, last := hist[..|hist| - 1], hist[|hist| - 1];
      BetweenIs(before, lo, hi);
      assert hist == before + [last];
      var rows, more := Between(before, lo, hi), if lo <= last.ts <= hi then [last] else [];
      assert Between(hist, lo, hi) == rows + more;
      hide Between;
      assert forall i :: 0 <= i < |rows| ==> rows[i] in rows;
      forall x | x in rows ensures x.ts < last.ts {
        BeforeLast(hist, x);
      }
    }
  }

  lemma Times(a: nat, b: nat, window: nat)
    ensures a <= b ==> a * window <= b * window
    ensures a < b ==> a * window + window <= b * window
  {
    if a < b {
      Scaled(b - a, window);
      Scaled(b - a - 1, window);
      assert b * window == a * window + (b - a) * window;
      assert (b - a) * window == (b - a - 1) * window + window;
    }
  }

  // The window in which a record is fresh.
  lemma FreshWindow(since: int, now: int, window: nat, ts: int) returns (k: nat)
    requires window > 0 && since < now && since <= ts <= now
    ensures k < Windows(since, now, window) && ts <= WindowEnd(since, now, window, k)
    ensures if k == 0 then since - 1 < ts else WindowStart(since, window, k) < ts
  {
    if ts == since {
      k := 0;
    } else {
      k := (ts - since - 1) / window;
      var rem := (ts - since - 1) % window;
      assert k * window + rem == ts - since - 1;
    }
    WindowsBound(since, now, window, k);
  }

  lemma FreshIsFetched(hist: seq<Rec>, since: int, now: int, limit: nat, window: nat, x: Rec)
    requires window > 0 && since < now && Ascending(hist) && x in hist && since <= x.ts <= now
    requires forall k :: 0 <= k < Windows(since, now, window) ==> FreshCount(hist, since, now, window, k) <= limit
    ensures Fetched(hist, since, now, limit, window, Windows(since, now, window), x)
  {
    var k := FreshWindow(since, now, window, x.ts);
    var lo := if k == 0 then since - 1 else WindowStart(since, window, k);
    var e := WindowEnd(since, now, window, k);
    CountSplit(hist, lo, x.ts, e);
    CountSplit(hist, lo, x.ts - 1, x.ts);
    CountOne(hist, x);
    assert FreshCount(hist, since, now, window, k) <= limit;
    assert Served(hist, WindowStart(since, window, k), e, limit, x);
  }

  // A window with more fresh records than the limit loses its oldest one for good.
  lemma OverfullLoses(hist: seq<Rec>, since: int, now: int, limit: nat, window: nat, k: nat) returns (x: Rec)
    requires window > 0 && limit > 0 && since < now && Ascending(hist)
    requires k < Windows(since, now, window) && FreshCount(hist, since, now, window, k) > limit
    ensures x in hist && since <= x.ts <= now
    ensures !Fetched(hist, since, now, limit, window, Windows(since, now, window), x)
  {
    var lo := if k == 0 then since - 1 else WindowStart(since, window, k);
    var e := WindowEnd(since, now, window, k);
    x := Oldest(hist, lo, e);
    CountSplit(hist, lo, x.ts, e);
    CountSplit(hist, lo, x.ts - 1, x.ts);
    CountOne(hist, x);
    Times(0, k, window);
    forall j | 0 <= j < Windows(since, now, window)
      ensures !Served(hist, WindowStart(since, window, j), WindowEnd(since, now, window, j), limit, x)
    {
      Times(j, k, window);
      Times(k, j, window);
      if j > k {
        if WindowStart(since, window, j) <= x.ts { CountNone(hist, x.ts, e); }
      }
    }
  }

  /** The walk returns every server settlement in [since, now], once each and in order, exactly when
      no window is the first to see more of them than a page holds. */
  lemma WalkComplete(hist: seq<Rec>, since: int, now: int, limit: nat, window: nat, rows: seq<Rec>)
    requires window > 0 && limit > 0 && since < now && Ascending(hist)
    requires IsWalk(hist, since, now, limit, window, rows)
    ensures rows == Between(hist, since, now) <==>
            forall k :: 0 <= k < Windows(since, now, window) ==> FreshCount(hist, since, now, window, k) <= limit
  {
    BetweenIs(hist, since, now);
    if k :| 0 <= k < Windows(since, now, window) && FreshCount(hist, since, now, window, k) > limit {
      var x := OverfullLoses(hist, since, now, limit, window, k);
      assert x in Between(hist, since, now) && x !in rows;
    } else {
      forall x ensures x in rows <==> x in Between(hist, since, now) {
        if x in Between(hist, since, now) {
          FreshIsFetched(hist, since, now, limit, window, x);
        }
        if x in rows {
          FetchedInRange(hist, since, now, limit, window, x);
        }
      }
      AscendingUnique(rows, Between(hist, since, now));
    }
  }

  lemma FetchedInRange(hist: seq<Rec>, since: int, now: int, limit: nat, window: nat, x: Rec)
    requires window > 0 && Fetched(hist, since, now, limit, window, Windows(since, now, window), x)
    ensures x in hist && since <= x.ts <= now
  {
    var k :| 0 <= k < Windows(since, now, window) &&
             Served(hist, WindowStart(since, window, k), WindowEnd(since, now, window, k), limit, x);
    Times(0, k, window);
  }

  /******* Spaced settlements *******/

  ghost predicate SpacedBy(hist: seq<Rec>, gap: nat) {
    forall i :: 0 <= i < |hist| - 1 ==> hist[i + 1].ts - hist[i].ts >= gap
  }

  lemma OneMore(k: nat, gap: nat)
    ensures (k + 1) * gap == k * gap + gap
  {
  }

  lemma {:induction false} SpacedCount(hist: seq<Rec>, gap: nat, lo: int, hi: int) returns (m: nat)
    requires gap > 0 && SpacedBy(hist, gap) && Count(hist, lo, hi) > 0
    ensures m < |hist| && lo < hist[m].ts <= hi
    ensures (Count(hist, lo, hi) - 1) * gap <= hist[m].ts - (lo + 1)
  {
    var n := |hist| - 1;
    if Count(hist[..n], lo, hi) == 0 {
      m := n;
    } else {
      m := SpacedCount(hist[..n], gap, lo, hi);
      if lo < hist[n].ts <= hi {
        SpacedFar(hist, gap, m, n);
        OneMore(Count(hist[..n], lo, hi) - 1, gap);
        m := n;
      }
    }
  }

  lemma {:induction false} SpacedFar(hist: seq<Rec>, gap: nat, i: nat, j: nat)
    requires SpacedBy(hist, gap) && i < j < |hist|
    ensures hist[j].ts - hist[i].ts >= gap
  {
    if i + 1 < j {
      SpacedFar(hist, gap, i, j - 1);
    }
    assert hist[j - 1 + 1].ts - hist[j - 1].ts >= gap;
  }

  // A window sees at most one settlement more than fit in it.
  lemma SpacedFresh(hist: seq<Rec>, since: int, now: int, limit: nat, window: nat, gap: nat, k: nat)
    requires window > 0 && gap > 0 && SpacedBy(hist, gap) && window / gap + 1 <= limit
    ensures FreshCount(hist, since, now, window, k) <= limit
  {
    var lo := if k == 0 then since - 1 else WindowStart(since, window, k);
    var e := WindowEnd(since, now, window, k);
    var count := Count(hist, lo, e);
    assert e - lo <= window + 1 by { assert 0 * window == 0; }
    assert FreshCount(hist, since, now, window, k) == count;
    hide WindowStart, WindowEnd, FreshCount, Count;
    if count > 0 {
      var m := SpacedCount(hist, gap, lo, e);
      QuotientBound(count - 1, window, gap);
    }
  }

  /** Settlements spaced so that floor(window / gap) + 1 of them fit in a page are all returned. */
  lemma SpacedWalkComplete(hist: seq<Rec>, since: int, now: int, limit: nat, window: nat, gap: nat, rows: seq<Rec>)
    requires window > 0 && gap > 0 && since < now && Ascending(hist) && SpacedBy(hist, gap)
    requires window / gap + 1 <= limit && IsWalk(hist, since, now, limit, window, rows)
    ensures rows == Between(hist, since, now)
  {
    hide *;
    forall k | 0 <= k < Windows(since, now, window) ensures FreshCount(hist, since, now, window, k) <= limit {
      SpacedFresh(hist, since, now, limit, window, gap, k);
    }
    var quotient := window / gap;
    assert limit > 0 by { assert quotient >= 0; }
    WalkComplete(hist, since, now, limit, window, rows);
  }

  lemma QuotientAtMost(length: nat, gap: nat, bound: nat)
    requires gap > 0 && length < (bound + 1) * gap
    ensures length / gap <= bound
  {
    var q, rem := length / gap, length % gap;
    assert q * gap + rem == length;
    Times(bound + 1, q, gap);
  }

  lemma QuotientBound(k: nat, window: nat, gap: nat)
    requires gap > 0 && k * gap <= window
    ensures k <= window / gap
  {
    var q, rem := window / gap, window % gap;
    assert q * gap + rem == window;
    Times(q + 1, k, gap);
  }

  /** The defaults suffice for settlements every eight, or every four, hours. */
  lemma DefaultWalkComplete(hist: seq<Rec>, since: int, now: int, gap: nat, rows: seq<Rec>)
    requires since < now && Ascending(hist) && SpacedBy(hist, gap) && gap >= 4 * 3_600_000
    requires IsWalk(hist, since, now, PAGE_MAX, WINDOW_MS, rows)
    ensures rows == Between(hist, since, now)
  {
    QuotientAtMost(WINDOW_MS, gap, 180);
    SpacedWalkComplete(hist, since, now, PAGE_MAX, WINDOW_MS, gap, rows);
  }
}
