/** Cleaning an OHLCV table column by column: de-duplicate, forward-fill, replace outliers, and widen
    high and low around the other prices. A table is its columns; a missing price is None. */
module Cleaner {
  import opened Common
  import opened Outliers
  import opened Columns

  datatype Table = Table(ts: seq<int>, open: Column, high: Column, low: Column, close: Column, volume: Column) {
    predicate Shaped() {
      |open| == |high| == |low| == |close| == |volume| == |ts|
    }
  }

  /******* De-duplication, keeping the last row of each stamp *******/

  function Kept(ts: seq<int>): (idx: seq<nat>)
    ensures forall k :: 0 <= k < |idx| ==> idx[k] < |ts|
  {
    KeptUpTo(ts, |ts|)
  }

  // Of the first n rows of a sorted table, those not followed by a row of the same stamp.
  function KeptUpTo(ts: seq<int>, n: nat): (idx: seq<nat>)
    requires n <= |ts|
    ensures forall k :: 0 <= k < |idx| ==> idx[k] < n
  {
    if n == 0 then []
    else KeptUpTo(ts, n - 1) + if n == |ts| || ts[n] != ts[n - 1] then [n - 1] else []
  }

  function Pick<T>(s: seq<T>, idx: seq<nat>): (r: seq<T>)
    requires forall k :: 0 <= k < |idx| ==> idx[k] < |s|
    ensures |r| == |idx| && forall k :: 0 <= k < |r| ==> r[k] == s[idx[k]]
  {
    seq(|idx|, k requires 0 <= k < |idx| => s[idx[k]])
  }

  function Dedup(t: Table): (r: Table)
    requires t.Shaped()
    ensures r.Shaped()
  {
    var idx := Kept(t.ts);
    Table(Pick(t.ts, idx), Pick(t.open, idx), Pick(t.high, idx), Pick(t.low, idx), Pick(t.close, idx),
      Pick(t.volume, idx))
  }

  lemma {:induction false} KeptAscends(ts: seq<int>, n: nat)
    requires Sorted(ts) && n <= |ts|
    ensures forall j, k :: 0 <= j < k < |KeptUpTo(ts, n)| ==> ts[KeptUpTo(ts, n)[j]] < ts[KeptUpTo(ts, n)[k]]
    ensures forall k :: 0 <= k < |KeptUpTo(ts, n)| && n < |ts| ==> ts[KeptUpTo(ts, n)[k]] < ts[n]
  {
    if n > 0 {
      KeptAscends(ts, n - 1);
    }
  }

  // Among the first n rows, a row is kept exactly when the next row of the table has another stamp.
  lemma {:induction false} KeptIs(ts: seq<int>, n: nat, i: nat)
    requires n <= |ts|
    ensures i in KeptUpTo(ts, n) <==> i < n && (i + 1 == |ts| || ts[i + 1] != ts[i])
  {
    if n > 0 {
      KeptIs(ts, n - 1, i);
    }
  }

  /** De-duplication keeps the last row of every stamp and no other. */
  lemma KeptLast(ts: seq<int>, i: nat)
    requires Sorted(ts) && i < |ts|
    ensures i in Kept(ts) <==> forall j :: i < j < |ts| ==> ts[j] != ts[i]
  {
    KeptIs(ts, |ts|, i);
  }

  lemma LastOf(ts: seq<int>, i: nat) returns (last: nat)
    requires i < |ts|
    ensures i <= last < |ts| && ts[last] == ts[i] && (last + 1 == |ts| || ts[last + 1] != ts[last])
    decreases |ts| - i
  {
    last := i;
    if i + 1 < |ts| && ts[i + 1] == ts[i] {
      last := LastOf(ts, i + 1);
    }
  }

  lemma {:induction false} KeptAll(ts: seq<int>, n: nat)
    requires StrictlySorted(ts) && n <= |ts|
    ensures |KeptUpTo(ts, n)| == n && forall k :: 0 <= k < n ==> KeptUpTo(ts, n)[k] == k
  {
    if n > 0 {
      KeptAll(ts, n - 1);
    }
  }

  /******* Outlier replacement *******/

  function Masked(s: Column, flags: seq<bool>): (r: Column)
    requires |flags| == |s|
    ensures |r| == |s|
  {
    seq(|s|, i requires 0 <= i < |s| => if flags[i] then None else s[i])
  }

  function Replaced(s: Column, flags: seq<bool>): (r: Column)
    requires |flags| == |s|
    ensures |r| == |s|
  {
    Ffill(Masked(s, flags))
  }

  // The nearest row at or before i that is not flagged; there is one, since row 0 never is.
  function Unflagged(flags: seq<bool>, i: nat): (j: nat)
    requires i < |flags| && !flags[0]
    ensures j <= i && !flags[j] && forall k :: j < k <= i ==> flags[k]
  {
    if !flags[i] then i else Unflagged(flags, i - 1)
  }

  /** Each row's price after replacement is that of the nearest unflagged row at or before it. */
  lemma {:induction false} ReplacedIs(s: Column, flags: seq<bool>, i: nat)
    requires |flags| == |s| && i < |s| && !flags[0] && Complete(s)
    ensures Replaced(s, flags)[i] == s[Unflagged(flags, i)]
  {
    FfillStep(Masked(s, flags), i);
    if flags[i] {
      ReplacedIs(s, flags, i - 1);
    }
  }

  /******* The price envelope *******/

  predicate Less(a: Option<real>, b: Option<real>) {
    a.Some? && b.Some? && a.value < b.value
  }

  // A comparison with a missing price is false.
  predicate Invalid(o: Option<real>, h: Option<real>, l: Option<real>, c: Option<real>) {
    Less(h, l) || Less(h, o) || Less(h, c) || Less(o, l) || Less(c, l)
  }

  function Upper(a: Option<real>, b: Option<real>): Option<real> {
    if a.None? then b else if b.Some? && a.value < b.value then b else a
  }

  function Lower(a: Option<real>, b: Option<real>): Option<real> {
    if a.None? then b else if b.Some? && b.value < a.value then b else a
  }

  function FixedHigh(o: Option<real>, h: Option<real>, l: Option<real>, c: Option<real>): Option<real> {
    if Invalid(o, h, l, c) then Upper(Upper(Upper(o, h), l), c) else h
  }

  // The low is fixed after the high has been, over the same rows.
  function FixedLow(o: Option<real>, h: Option<real>, l: Option<real>, c: Option<real>): Option<real> {
    if Invalid(o, h, l, c) then Lower(Lower(Lower(o, FixedHigh(o, h, l, c)), l), c) else l
  }

  /** The high becomes the highest of the row's prices, and the low the lowest of the others: the high
      that was there is gone before the low is fixed. */
  lemma FixedIsTight(o: Option<real>, h: Option<real>, l: Option<real>, c: Option<real>)
    requires Invalid(o, h, l, c)
    ensures var high := FixedHigh(o, h, l, c);
            high.Some? && high in {o, h, l, c} && forall x :: x in {o, h, l, c} ==> !Less(high, x)
    ensures var low := FixedLow(o, h, l, c);
            low.Some? && low in {o, l, c} && forall x :: x in {o, l, c} ==> !Less(x, low)
  {
  }

  lemma FixedIsValid(o: Option<real>, h: Option<real>, l: Option<real>, c: Option<real>)
    ensures !Invalid(o, FixedHigh(o, h, l, c), FixedLow(o, h, l, c), c)
    ensures Invalid(o, h, l, c) ==> FixedHigh(o, h, l, c).Some? && FixedLow(o, h, l, c).Some?
    ensures h.Some? ==> FixedHigh(o, h, l, c).Some?
    ensures l.Some? ==> FixedLow(o, h, l, c).Some?
  {
  }

  predicate InvalidRow(t: Table, i: nat)
    requires t.Shaped() && i < |t.ts|
  {
    Invalid(t.open[i], t.high[i], t.low[i], t.close[i])
  }

  function Widened(t: Table): (r: Table)
    requires t.Shaped()
    ensures r.Shaped()
  {
    var n := |t.ts|;
    t.(high := seq(n, i requires 0 <= i < n => FixedHigh(t.open[i], t.high[i], t.low[i], t.close[i])),
       low := seq(n, i requires 0 <= i < n => FixedLow(t.open[i], t.high[i], t.low[i], t.close[i])))
  }

  /******* The whole pipeline *******/

  // The fill methods: ffill, interpolate, and any other, which fills nothing.
  datatype Fill = Forward | Linear | Other

  function FillColumn(s: Column, fill: Fill): (r: Column)
    ensures |r| == |s|
  {
    match fill
    case Forward => Ffill(s)
    case Linear => Interpolated(s)
    case Other => s
  }

  function Filled(t: Table, fill: Fill): (r: Table)
    requires t.Shaped()
    ensures r.Shaped()
  {
    var f := t.(open := FillColumn(t.open, fill), high := FillColumn(t.high, fill),
                low := FillColumn(t.low, fill), close := FillColumn(t.close, fill));
    f.(volume := FillZero(f.volume))
  }

  function Flags(t: Table, remove: bool, deviations: real): (flags: seq<bool>)
    requires t.Shaped()
    ensures |flags| == |t.ts|
  {
    if remove then Detect(t.close, deviations) else seq(|t.ts|, _ => false)
  }

  function Smoothed(t: Table, flags: seq<bool>): (r: Table)
    requires t.Shaped() && |flags| == |t.ts|
    ensures r.Shaped()
  {
    if exists i :: 0 <= i < |flags| && flags[i] then
      t.(open := Replaced(t.open, flags), high := Replaced(t.high, flags), low := Replaced(t.low, flags),
        close := Replaced(t.close, flags))
    else t
  }

  // The table whose rows are final but for the envelope.
  function Prepared(t: Table, remove: bool, deviations: real, fill: Fill): (r: Table)
    requires t.Shaped()
    ensures r.Shaped()
  {
    var f := Filled(Dedup(t), fill);
    Smoothed(f, Flags(f, remove, deviations))
  }

  function Clean(t: Table, remove: bool, deviations: real, fill: Fill): (r: Table)
    requires t.Shaped()
    ensures r.Shaped()
  {
    Widened(Prepared(t, remove, deviations, fill))
  }

  datatype Error = FutureData

  // A rearrangement of all the rows.
  predicate Orders(order: seq<nat>, ts: seq<int>) {
    && |order| == |ts|
    && (forall k :: 0 <= k < |order| ==> order[k] < |ts|)
    && (forall i :: 0 <= i < |ts| ==> i in order)
  }

  // The sort is not stable: it may choose any rearrangement that puts the stamps in order.
  predicate Sorts(order: seq<nat>, ts: seq<int>) {
    Orders(order, ts) && Sorted(Pick(ts, order))
  }

  function Rearranged(t: Table, order: seq<nat>): (r: Table)
    requires t.Shaped() && Orders(order, t.ts)
    ensures r.Shaped()
  {
    Table(Pick(t.ts, order), Pick(t.open, order), Pick(t.high, order),
          Pick(t.low, order), Pick(t.close, order), Pick(t.volume, order))
  }

  // The columns of a sorted table, one step after another.
  method CleanColumns(sorted: Table, remove: bool, deviations: real, fill: Fill) returns (df: Table)
    requires sorted.Shaped()
    ensures df == Clean(sorted, remove, deviations, fill)
  {
    hide Dedup, FillColumn, FillZero, Replaced, Widened, Detect;
    df := Dedup(sorted);
    if fill != Other {
      df := df.(open := FillColumn(df.open, fill));
      df := df.(high := FillColumn(df.high, fill));
      df := df.(low := FillColumn(df.low, fill));
      df := df.(close := FillColumn(df.close, fill));
    } else {
      NothingFilled(df.open);
      NothingFilled(df.high);
      NothingFilled(df.low);
      NothingFilled(df.close);
    }
    df := df.(volume := FillZero(df.volume));
    assert df == Filled(Dedup(sorted), fill);
    if remove {
      var flags := Detect(df.close, deviations);
      if exists i :: 0 <= i < |flags| && flags[i] {
        df := df.(open := Replaced(df.open, flags));
        df := df.(high := Replaced(df.high, flags));
        df := df.(low := Replaced(df.low, flags));
        df := df.(close := Replaced(df.close, flags));
      }
    }
    df := Widened(df);
  }

  predicate Future(ts: seq<int>, now: Option<int>) {
    now.Some? && exists i :: 0 <= i < |ts| && ts[i] > now.value
  }

  // The rearrangement is the sort's choice; now is the clock when future stamps are to be refused.
  method CleanOhlcv(raw: Table, order: seq<nat>, remove: bool, deviations: real, fill: Fill, now: Option<int>)
    returns (r: Result<Table, Error>)
    requires raw.Shaped() && Sorts(order, raw.ts)
    ensures r.Err? <==> Future(raw.ts, now)
    ensures r.Ok? ==> r.value == Clean(Rearranged(raw, order), remove, deviations, fill)
  {
    var df := Rearranged(raw, order);
    SameFuture(raw.ts, order, now);
    if Future(df.ts, now) {
      return Err(FutureData);
    }
    df := CleanColumns(df, remove, deviations, fill);
    r := Ok(df);
  }

  lemma NothingFilled(s: Column)
    ensures FillColumn(s, Other) == s
  {
  }

  lemma SameFuture(ts: seq<int>, order: seq<nat>, now: Option<int>)
    requires Orders(order, ts)
    ensures Future(Pick(ts, order), now) <==> Future(ts, now)
  {
    var r := Pick(ts, order);
    if Future(ts, now) {
      var i :| 0 <= i < |ts| && ts[i] > now.value;
      assert i in order;
      var k :| 0 <= k < |order| && order[k] == i;
      assert r[k] > now.value;
    }
    if Future(r, now) {
      var k :| 0 <= k < |r| && r[k] > now.value;
      assert ts[order[k]] > now.value;
    }
  }

  /******* What a cleaned table is like *******/

  /** Stamps are strictly increasing, whichever duplicate survived the sort. */
  lemma CleanStamps(t: Table, remove: bool, deviations: real, fill: Fill)
    requires t.Shaped() && Sorted(t.ts)
    ensures StrictlySorted(Clean(t, remove, deviations, fill).ts)
  {
    KeptAscends(t.ts, |t.ts|);
  }

  /** No stamp of the table is lost. */
  lemma NoStampLost(t: Table, remove: bool, deviations: real, fill: Fill, i: nat)
    requires t.Shaped() && i < |t.ts|
    ensures t.ts[i] in Clean(t, remove, deviations, fill).ts
  {
    var last := LastOf(t.ts, i);
    KeptIs(t.ts, |t.ts|, last);
    CleanedTs(t, remove, deviations, fill);
    hide Clean, KeptUpTo;
    var k :| 0 <= k < |Kept(t.ts)| && Kept(t.ts)[k] == last;
    assert Dedup(t).ts[k] == t.ts[i];
  }

  lemma CleanedTs(t: Table, remove: bool, deviations: real, fill: Fill)
    requires t.Shaped()
    ensures Clean(t, remove, deviations, fill).ts == Dedup(t).ts
  {
    hide Dedup, Detect, FillColumn, Replaced;
  }

  /** Nor is one lost in the sort. */
  lemma RawStampKept(raw: Table, order: seq<nat>, remove: bool, deviations: real, fill: Fill, i: nat)
    requires raw.Shaped() && Sorts(order, raw.ts) && i < |raw.ts|
    ensures raw.ts[i] in Clean(Rearranged(raw, order), remove, deviations, fill).ts
  {
    assert i in order;
    var k :| 0 <= k < |order| && order[k] == i;
    assert Rearranged(raw, order).ts[k] == raw.ts[i];
    hide Clean;
    NoStampLost(Rearranged(raw, order), remove, deviations, fill, k);
  }

  /** A complete row that is neither flagged nor invalid keeps its prices. */
  lemma SoundRowStays(t: Table, remove: bool, deviations: real, fill: Fill, i: nat)
    requires t.Shaped() && i < |Dedup(t).ts|
    requires var d := Dedup(t);
             d.open[i].Some? && d.high[i].Some? && d.low[i].Some? && d.close[i].Some? && !InvalidRow(d, i)
             && !Flags(Filled(d, fill), remove, deviations)[i]
    ensures var d, r := Dedup(t), Clean(t, remove, deviations, fill);
            r.ts == d.ts && r.open[i] == d.open[i] && r.high[i] == d.high[i] && r.low[i] == d.low[i]
              && r.close[i] == d.close[i]
  {
    var d := Dedup(t);
    var f := Filled(d, fill);
    var flags := Flags(f, remove, deviations);
    hide Dedup, Flags, Invalid, FixedHigh, FixedLow, FillColumn, Replaced;
    PresentStays(d.open, fill, flags, i);
    PresentStays(d.high, fill, flags, i);
    PresentStays(d.low, fill, flags, i);
    PresentStays(d.close, fill, flags, i);
    var p := Smoothed(f, flags);
    assert p.open[i] == d.open[i] && p.high[i] == d.high[i] && p.low[i] == d.low[i] && p.close[i] == d.close[i];
    SoundPrices(d.open[i], d.high[i], d.low[i], d.close[i]);
  }

  lemma SoundPrices(o: Option<real>, h: Option<real>, l: Option<real>, c: Option<real>)
    requires !Invalid(o, h, l, c)
    ensures FixedHigh(o, h, l, c) == h && FixedLow(o, h, l, c) == l
  {
  }

  lemma PresentFilled(s: Column, fill: Fill, i: nat)
    requires i < |s| && s[i].Some?
    ensures FillColumn(s, fill)[i] == s[i]
  {
    FfillStep(s, i);
  }

  lemma PresentStays(s: Column, fill: Fill, flags: seq<bool>, i: nat)
    requires i < |s| == |flags| && s[i].Some? && !flags[i]
    ensures FillColumn(s, fill)[i] == s[i] && Replaced(FillColumn(s, fill), flags)[i] == s[i]
  {
    PresentFilled(s, fill, i);
    hide FillColumn;
    FfillStep(Masked(FillColumn(s, fill), flags), i);
  }

  /** On every row each price that is present lies within the low and high that are present. */
  lemma CleanEnvelope(t: Table, remove: bool, deviations: real, fill: Fill, i: nat)
    requires t.Shaped() && i < |Clean(t, remove, deviations, fill).ts|
    ensures !InvalidRow(Clean(t, remove, deviations, fill), i)
  {
    var p := Prepared(t, remove, deviations, fill);
    FixedIsValid(p.open[i], p.high[i], p.low[i], p.close[i]);
    hide Prepared, Invalid, FixedHigh, FixedLow;
  }

  predicate CompleteTable(t: Table) {
    Complete(t.open) && Complete(t.high) && Complete(t.low) && Complete(t.close)
  }

  predicate FirstComplete(t: Table) {
    |t.ts| > 0 && t.Shaped() && t.open[0].Some? && t.high[0].Some? && t.low[0].Some? && t.close[0].Some?
  }

  lemma ColumnComplete(s: Column, fill: Fill)
    requires fill != Other && s != [] && s[0].Some?
    ensures Complete(FillColumn(s, fill))
  {
    FfillComplete(s);
    InterpolatedComplete(s);
  }

  lemma FilledComplete(t: Table, fill: Fill)
    requires FirstComplete(t) && fill != Other
    ensures CompleteTable(Filled(t, fill))
  {
    ColumnComplete(t.open, fill);
    ColumnComplete(t.high, fill);
    ColumnComplete(t.low, fill);
    ColumnComplete(t.close, fill);
  }

  lemma ReplacedComplete(s: Column, flags: seq<bool>)
    requires |flags| == |s| > 0 && !flags[0] && Complete(s)
    ensures Complete(Replaced(s, flags))
  {
    FfillComplete(Masked(s, flags));
  }

  lemma FirstFlag(t: Table, remove: bool, deviations: real)
    requires t.Shaped() && |t.ts| > 0
    ensures !Flags(t, remove, deviations)[0]
  {
    if remove { FirstRowNeverFlagged(t.close, deviations); }
  }

  lemma PreparedComplete(t: Table, remove: bool, deviations: real, fill: Fill)
    requires t.Shaped() && FirstComplete(Dedup(t)) && fill != Other
    ensures CompleteTable(Prepared(t, remove, deviations, fill))
  {
    hide Dedup, FillColumn, Replaced;
    FilledComplete(Dedup(t), fill);
    var f := Filled(Dedup(t), fill);
    hide Filled;
    var flags := Flags(f, remove, deviations);
    FirstFlag(f, remove, deviations);
    hide Flags;
    ReplacedComplete(f.open, flags);
    ReplacedComplete(f.high, flags);
    ReplacedComplete(f.low, flags);
    ReplacedComplete(f.close, flags);
  }

  /** If the first row kept is complete and gaps are filled, every cleaned row is, with low <= open, close <= high. */
  lemma CleanRow(t: Table, remove: bool, deviations: real, fill: Fill, i: nat)
    requires t.Shaped() && FirstComplete(Dedup(t)) && fill != Other && i < |Clean(t, remove, deviations, fill).ts|
    ensures var r := Clean(t, remove, deviations, fill);
            && r.open[i].Some? && r.high[i].Some? && r.low[i].Some? && r.close[i].Some?
            && r.low[i].value <= r.open[i].value <= r.high[i].value
            && r.low[i].value <= r.close[i].value <= r.high[i].value
  {
    PreparedComplete(t, remove, deviations, fill);
    CleanEnvelope(t, remove, deviations, fill, i);
    var p := Prepared(t, remove, deviations, fill);
    FixedIsValid(p.open[i], p.high[i], p.low[i], p.close[i]);
    hide Prepared, FixedHigh, FixedLow;
  }

  /** Before the envelope is fixed, a flagged row carries the prices of the nearest earlier row that
      is not flagged, and every other row its own. */
  lemma FlaggedRowPrices(t: Table, deviations: real, fill: Fill, i: nat)
    requires t.Shaped() && FirstComplete(Dedup(t)) && fill != Other && i < |Dedup(t).ts|
    ensures var f := Filled(Dedup(t), fill);
            var flags := Flags(f, true, deviations);
            var p, j := Prepared(t, true, deviations, fill), Unflagged(flags, i);
            && !flags[0]
            && p.open[i] == f.open[j] && p.high[i] == f.high[j] && p.low[i] == f.low[j] && p.close[i] == f.close[j]
  {
    hide Dedup;
    FilledComplete(Dedup(t), fill);
    var f := Filled(Dedup(t), fill);
    hide Filled;
    var flags := Flags(f, true, deviations);
    FirstFlag(f, true, deviations);
    hide Flags, Replaced;
    ReplacedIs(f.open, flags, i);
    ReplacedIs(f.high, flags, i);
    ReplacedIs(f.low, flags, i);
    ReplacedIs(f.close, flags, i);
  }

  /******* Cleaning twice *******/

  // An invalid row gets a high and a low even if it had none; a following row left without one would
  // then be filled from it by a second cleaning.
  ghost predicate NoLeak(f: Table)
    requires f.Shaped()
  {
    forall i :: 0 < i < |f.ts| && InvalidRow(f, i - 1) && !InvalidRow(f, i) ==> f.high[i].Some? && f.low[i].Some?
  }

  lemma DedupFixed(t: Table)
    requires t.Shaped() && StrictlySorted(t.ts)
    ensures Dedup(t) == t
  {
    KeptAll(t.ts, |t.ts|);
  }

  lemma WidenedFixed(t: Table)
    requires t.Shaped() && forall i :: 0 <= i < |t.ts| ==> !InvalidRow(t, i)
    ensures Widened(t) == t
  {
    forall i | 0 <= i < |t.ts| ensures Widened(t).high[i] == t.high[i] && Widened(t).low[i] == t.low[i] {
      assert !InvalidRow(t, i);
    }
  }

  lemma NoFlags(t: Table, deviations: real)
    requires t.Shaped()
    ensures Smoothed(t, Flags(t, false, deviations)) == t
  {
  }

  lemma FillNoGap(s: Column, fill: Fill)
    requires fill != Other
    ensures NoGap(FillColumn(s, fill))
  {
    FfillNoGap(s);
    InterpolatedNoGap(s);
  }

  // Either fill leaves a column alone exactly when nothing follows a value but values.
  lemma FillFixed(s: Column, fill: Fill)
    requires fill != Other
    ensures FillColumn(s, fill) == s <==> NoGap(s)
  {
    FfillFixed(s);
    InterpolatedFixed(s);
  }

  // A gap right below a value is filled.
  lemma GapFilled(s: Column, fill: Fill, i: nat)
    requires fill != Other && 0 < i < |s| && s[i].None? && s[i - 1].Some?
    ensures FillColumn(s, fill)[i].Some?
  {
    FfillStep(s, i);
    FfillStep(s, i - 1);
  }

  lemma FilledColumns(t: Table, fill: Fill)
    requires t.Shaped() && fill != Other
    ensures var f := Filled(t, fill);
            NoGap(f.open) && NoGap(f.high) && NoGap(f.low) && NoGap(f.close)
  {
    FillNoGap(t.open, fill);
    FillNoGap(t.high, fill);
    FillNoGap(t.low, fill);
    FillNoGap(t.close, fill);
  }

  lemma VolumeFilled(t: Table, fill: Fill)
    requires t.Shaped()
    ensures Complete(Filled(t, fill).volume)
  {
  }

  lemma FilledFixed(t: Table, fill: Fill)
    requires t.Shaped() && Complete(t.volume) && (fill != Other ==> NoGap(t.open) && NoGap(t.close))
    ensures Filled(t, fill) == t.(high := FillColumn(t.high, fill), low := FillColumn(t.low, fill))
  {
    assert FillZero(t.volume) == t.volume;
    if fill != Other {
      FillFixed(t.open, fill);
      FillFixed(t.close, fill);
    }
  }

  // A filled column in which the bad rows are given values.
  ghost predicate Patched(s: Column, r: Column, bad: seq<bool>) {
    && |s| == |r| == |bad|
    && forall i :: 0 <= i < |s| ==> if bad[i] then r[i].Some? else r[i] == s[i]
  }

  lemma PatchedGaps(s: Column, r: Column, bad: seq<bool>)
    requires Patched(s, r, bad) && NoGap(s)
    ensures NoGap(r) <==> forall i :: 0 < i < |s| && bad[i - 1] && !bad[i] ==> s[i].Some?
  {
    if forall i :: 0 < i < |s| && bad[i - 1] && !bad[i] ==> s[i].Some? {
      forall i | 0 < i < |r| && r[i].None? ensures r[i - 1].None? {
        assert !bad[i] && s[i].None? && s[i - 1].None?;
      }
    } else {
      var i :| 0 < i < |s| && bad[i - 1] && !bad[i] && s[i].None?;
      assert r[i].None? && r[i - 1].Some?;
    }
  }

  function BadRows(f: Table): (bad: seq<bool>)
    requires f.Shaped()
    ensures |bad| == |f.ts| && forall i :: 0 <= i < |bad| ==> bad[i] == InvalidRow(f, i)
  {
    seq(|f.ts|, i requires 0 <= i < |f.ts| => InvalidRow(f, i))
  }

  lemma WidenedPatches(f: Table)
    requires f.Shaped()
    ensures Patched(f.high, Widened(f).high, BadRows(f)) && Patched(f.low, Widened(f).low, BadRows(f))
  {
    forall i | 0 <= i < |f.ts|
      ensures InvalidRow(f, i) ==> Widened(f).high[i].Some? && Widened(f).low[i].Some?
      ensures !InvalidRow(f, i) ==> Widened(f).high[i] == f.high[i] && Widened(f).low[i] == f.low[i]
    {
      FixedIsValid(f.open[i], f.high[i], f.low[i], f.close[i]);
    }
    hide Widened, InvalidRow;
  }

  // Widening leaves a gap after a value exactly where a leak is.
  lemma WidenedGaps(f: Table)
    requires f.Shaped() && NoGap(f.high) && NoGap(f.low)
    ensures NoGap(Widened(f).high) && NoGap(Widened(f).low) <==> NoLeak(f)
  {
    WidenedPatches(f);
    hide Widened, InvalidRow, Patched, NoGap;
    PatchedGaps(f.high, Widened(f).high, BadRows(f));
    PatchedGaps(f.low, Widened(f).low, BadRows(f));
  }

  // Filling a gap cannot be undone by the envelope.
  lemma GapShows(g: Table, fill: Fill)
    requires g.Shaped() && fill != Other && !(NoGap(g.high) && NoGap(g.low))
    ensures Widened(g.(high := FillColumn(g.high, fill), low := FillColumn(g.low, fill))) != g
  {
    var g2 := g.(high := FillColumn(g.high, fill), low := FillColumn(g.low, fill));
    hide FillColumn;
    if !NoGap(g.high) {
      var i :| 0 < i < |g.high| && g.high[i].None? && g.high[i - 1].Some?;
      GapFilled(g.high, fill, i);
      FixedIsValid(g2.open[i], g2.high[i], g2.low[i], g2.close[i]);
      assert Widened(g2).high[i].Some?;
    } else {
      var i :| 0 < i < |g.low| && g.low[i].None? && g.low[i - 1].Some?;
      GapFilled(g.low, fill, i);
      FixedIsValid(g2.open[i], g2.high[i], g2.low[i], g2.close[i]);
      assert Widened(g2).low[i].Some?;
    }
  }

  // What a cleaned table is, and what a second cleaning makes of it.
  lemma Again(t: Table, deviations: real, fill: Fill)
    requires t.Shaped() && Sorted(t.ts)
    ensures var f, g := Filled(Dedup(t), fill), Clean(t, false, deviations, fill);
            && g == Widened(f)
            && (forall i :: 0 <= i < |g.ts| ==> !InvalidRow(g, i))
            && Clean(g, false, deviations, fill) ==
               Widened(g.(high := FillColumn(g.high, fill), low := FillColumn(g.low, fill)))
  {
    var f, g := Filled(Dedup(t), fill), Clean(t, false, deviations, fill);
    NoFlags(f, deviations);
    CleanStamps(t, false, deviations, fill);
    forall i | 0 <= i < |g.ts| ensures !InvalidRow(g, i) { CleanEnvelope(t, false, deviations, fill, i); }
    VolumeFilled(Dedup(t), fill);
    if fill != Other { FilledColumns(Dedup(t), fill); }
    DedupFixed(g);
    FilledFixed(g, fill);
    NoFlags(Filled(g, fill), deviations);
    hide Dedup, Filled, InvalidRow, FillColumn;
  }

  /** With outlier removal off, cleaning a cleaned table changes nothing exactly when no invalid row is
      followed by a valid row that has still no high, or no low, after the fill; or when nothing is filled. */
  lemma CleanTwice(t: Table, deviations: real, fill: Fill)
    requires t.Shaped() && Sorted(t.ts)
    ensures var g := Clean(t, false, deviations, fill);
            Clean(g, false, deviations, fill) == g <==> fill == Other || NoLeak(Filled(Dedup(t), fill))
  {
    var f, g := Filled(Dedup(t), fill), Clean(t, false, deviations, fill);
    Again(t, deviations, fill);
    if fill == Other {
      hide Clean, Dedup, Filled, Widened;
      WidenedFixed(g);
    } else {
      FilledColumns(Dedup(t), fill);
      hide Clean, Dedup, Filled, InvalidRow, FillColumn;
      WidenedGaps(f);
      hide Widened, NoLeak;
      if NoGap(g.high) && NoGap(g.low) {
        FillFixed(g.high, fill);
        FillFixed(g.low, fill);
        WidenedFixed(g);
      } else {
        GapShows(g, fill);
      }
    }
  }

  /** In particular when the first row kept is complete. */
  lemma CleanTwiceComplete(t: Table, deviations: real, fill: Fill)
    requires t.Shaped() && Sorted(t.ts) && FirstComplete(Dedup(t))
    ensures var g := Clean(t, false, deviations, fill); Clean(g, false, deviations, fill) == g
  {
    if fill != Other { FilledComplete(Dedup(t), fill); }
    CleanTwice(t, deviations, fill);
    hide Clean, Filled, Dedup, InvalidRow;
  }

  function LeakyTable(): Table {
    Table([1, 2], [Some(5.0), Some(1.0)], [None, None], [Some(6.0), Some(1.0)], [Some(5.0), Some(1.0)],
      [Some(0.0), Some(0.0)])
  }

  /** The condition matters: here a second cleaning gives the second row a high it never had. */
  lemma CleanTwiceLeaks(deviations: real, fill: Fill)
    requires fill != Other
    ensures var g := Clean(LeakyTable(), false, deviations, fill); Clean(g, false, deviations, fill) != g
  {
    hide Clean, Filled, Dedup, InvalidRow, LeakyTable;
    var t := LeakyTable();
    LeakyRows();
    LeakFill(t, fill);
    DedupFixed(t);
    assert InvalidRow(t, 1 - 1);
    CleanTwice(t, deviations, fill);
  }

  lemma LeakyRows()
    ensures var t := LeakyTable();
            && t.Shaped() && |t.ts| == 2 && StrictlySorted(t.ts)
            && Complete(t.open) && Complete(t.low) && Complete(t.close) && Complete(t.volume) && t.high == [None, None]
            && InvalidRow(t, 0) && !InvalidRow(t, 1)
  {
  }

  lemma LeakFill(t: Table, fill: Fill)
    requires t.Shaped() && |t.ts| == 2 && Complete(t.open) && Complete(t.low) && Complete(t.close)
        && Complete(t.volume) && t.high == [None, None] && fill != Other
    ensures Filled(t, fill) == t
  {
    FillFixed(t.open, fill);
    FillFixed(t.high, fill);
    FillFixed(t.low, fill);
    FillFixed(t.close, fill);
    assert FillZero(t.volume) == t.volume;
  }
}
