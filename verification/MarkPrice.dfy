/** The mark-price download. Its cursor only moves forward from the last stamp it has seen, so what it
    returns depends on which end of the range the endpoint cuts its pages from. */
module MarkPrice {
  import opened Common
  import opened Timeline
  import opened KlineCursor

  datatype Cut = OldestFirst | NewestFirst

  // The page served for a cursor: limit records of the range from there on, from one end or the other.
  function MarkPage(range: seq<Rec>, cursor: int, limit: nat, cut: Cut): seq<Rec> {
    var i, n := From(range, cursor), |range|;
    match cut
    case OldestFirst => range[i..PageEnd(range, i, limit)]
    case NewestFirst => range[if n < i + limit then i else n - limit..]
  }

  // After so many full pages the cursor stands at index i.
  ghost predicate Progress(range: seq<Rec>, limit: nat, cut: Cut, pages: nat, i: nat, rows: seq<Rec>) {
    && i <= |range|
    && match cut
       case OldestFirst => i == Capacity(pages, limit) && rows == range[..i]
       case NewestFirst => if pages == 0 then i == 0 && rows == []
                           else pages == 1 && i == |range| && limit <= |range| && rows == range[|range| - limit..]
  }

  // From the oldest end the whole range; from the newest end its last page.
  ghost predicate Returned(range: seq<Rec>, limit: nat, cut: Cut, rows: seq<Rec>) {
    match cut
    case OldestFirst => rows == range
    case NewestFirst => rows == range[if |range| < limit then 0 else |range| - limit..]
  }

  ghost predicate Finished(range: seq<Rec>, limit: nat, cut: Cut, rows: seq<Rec>) {
    Returned(range, limit, cut, rows) && (cut == OldestFirst ==> |range| < Capacity(MAX_PAGES, limit))
  }

  // The range is what the server holds from the start through the end that every request repeats.
  method FetchMark(range: seq<Rec>, since0: int, limit: nat, cut: Cut) returns (r: Result<seq<Rec>, string>)
    requires Ascending(range) && limit > 0 && forall k :: 0 <= k < |range| ==> range[k].ts >= since0
    ensures r.Err? <==> cut == OldestFirst && |range| >= Capacity(MAX_PAGES, limit)
    ensures r.Err? <==> cut == OldestFirst && |range| >= 500 * limit
    ensures r.Ok? ==> Returned(range, limit, cut, r.value)
    ensures cut == OldestFirst && r.Ok? ==> r.value == range
    ensures cut == NewestFirst ==> r.Ok? && (r.value == range <==> |range| <= limit)
  {
    var cursor, rows, pages := since0, [], 0;
    CapacityIs(MAX_PAGES, limit);
    hide Finished, From, Ascending, Tidy, Capacity, Progress, MarkPage, Returned, NextIndex;
    ghost var i := 0;
    Starts(range, since0, limit, cut);
    while true
      invariant pages <= MAX_PAGES && i == From(range, cursor) && Progress(range, limit, cut, pages, i, rows)
      decreases MAX_PAGES - pages
    {
      if pages + 1 > MAX_PAGES {
        TooMany(range, limit, cut, i, rows);
        return Err("pagination exceeded 500 pages");
      }
      var records := MarkPage(range, cursor, limit, cut);
      Reads(range, limit, cut, pages, i, cursor, rows);
      pages := pages + 1;
      if records == [] { break; }
      var last := records[|records| - 1].ts;
      rows := rows + records;
      if |records| < limit { break; }
      i := NextIndex(range, i, limit, cut);
      cursor := last + 1;
    }
    TidySlice(range, rows, cut, limit);
    r := Ok(Tidy(rows));
  }

  ghost function NextIndex(range: seq<Rec>, i: nat, limit: nat, cut: Cut): nat {
    if cut == OldestFirst then i + limit else |range|
  }

  lemma Starts(range: seq<Rec>, since: int, limit: nat, cut: Cut)
    requires Ascending(range) && forall k :: 0 <= k < |range| ==> range[k].ts >= since
    ensures From(range, since) == 0 && Progress(range, limit, cut, 0, 0, [])
  {
    FromIs(range, since, 0);
  }

  lemma TooMany(range: seq<Rec>, limit: nat, cut: Cut, i: nat, rows: seq<Rec>)
    requires Progress(range, limit, cut, MAX_PAGES, i, rows)
    ensures cut == OldestFirst && |range| >= Capacity(MAX_PAGES, limit)
  {
    hide Capacity;
  }

  // One page read at index i: nothing, a short page, or a full one.
  lemma Reads(range: seq<Rec>, limit: nat, cut: Cut, pages: nat, i: nat, cursor: int, rows: seq<Rec>)
    requires Ascending(range) && limit > 0 && pages < MAX_PAGES && i == From(range, cursor)
        && Progress(range, limit, cut, pages, i, rows)
    ensures var records := MarkPage(range, cursor, limit, cut);
            && (records == [] ==> Finished(range, limit, cut, rows))
            && (|records| < limit ==> Finished(range, limit, cut, rows + records))
            && (|records| >= limit ==>
                  var i' := NextIndex(range, i, limit, cut);
                  && From(range, records[|records| - 1].ts + 1) == i'
                  && Progress(range, limit, cut, pages + 1, i', rows + records))
  {
    hide Progress, Finished, MarkPage, From, Ascending;
    if cut == OldestFirst {
      ReadsOldest(range, limit, pages, i, cursor, rows);
      if i + limit <= |range| { CursorNext(range, i + limit); }
    } else {
      ReadsNewest(range, limit, pages, i, cursor, rows);
      if 0 < |range| { CursorNext(range, |range|); }
    }
  }

  lemma ReadsOldest(range: seq<Rec>, limit: nat, pages: nat, i: nat, cursor: int, rows: seq<Rec>)
    requires limit > 0 && pages < MAX_PAGES && i == From(range, cursor)
        && Progress(range, limit, OldestFirst, pages, i, rows)
    ensures var records := MarkPage(range, cursor, limit, OldestFirst);
            && (records == [] ==> Finished(range, limit, OldestFirst, rows))
            && (|records| < limit ==> Finished(range, limit, OldestFirst, rows + records))
            && (|records| >= limit ==>
                  && i + limit <= |range| && records[|records| - 1] == range[i + limit - 1]
                  && Progress(range, limit, OldestFirst, pages + 1, i + limit, rows + records))
  {
    CapacityNext(pages, limit);
    CapacityOrder(pages + 1, MAX_PAGES, limit);
    hide Capacity, From;
    var e := PageEnd(range, i, limit);
    assert rows + MarkPage(range, cursor, limit, OldestFirst) == range[..e];
    assert e == |range| ==> range[..e] == range;
  }

  lemma ReadsNewest(range: seq<Rec>, limit: nat, pages: nat, i: nat, cursor: int, rows: seq<Rec>)
    requires limit > 0 && i == From(range, cursor) && Progress(range, limit, NewestFirst, pages, i, rows)
    ensures var records := MarkPage(range, cursor, limit, NewestFirst);
            && (records == [] ==> Finished(range, limit, NewestFirst, rows))
            && (|records| < limit ==> Finished(range, limit, NewestFirst, rows + records))
            && (|records| >= limit ==>
                  && 0 < |range| && records[|records| - 1] == range[|range| - 1]
                  && Progress(range, limit, NewestFirst, pages + 1, |range|, rows + records))
  {
    hide Capacity, From;
    var records := MarkPage(range, cursor, limit, NewestFirst);
    assert rows + records == if pages == 0 then records else rows;
  }

  lemma CapacityNext(pages: nat, limit: nat)
    ensures Capacity(0, limit) == 0 && Capacity(pages + 1, limit) == Capacity(pages, limit) + limit
  {
  }

  lemma {:induction false} CapacityOrder(a: nat, b: nat, limit: nat)
    requires a <= b
    ensures Capacity(a, limit) <= Capacity(b, limit)
  {
    if a < b {
      CapacityOrder(a, b - 1, limit);
    }
  }

  lemma TidySlice(range: seq<Rec>, rows: seq<Rec>, cut: Cut, limit: nat)
    requires Ascending(range) && Finished(range, limit, cut, rows)
    ensures Tidy(rows) == rows && Returned(range, limit, cut, rows)
    ensures !(cut == OldestFirst && |range| >= Capacity(MAX_PAGES, limit))
  {
    TidyAscending(rows);
  }
}
