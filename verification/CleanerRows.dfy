/** Cleaning row by row, in terms of the raw table: which row each cleaned row comes from, what stays of it,
    and what is done to its prices. */
module CleanerRows {
  import opened Common
  import opened Columns
  import opened Outliers
  import opened Cleaner

  // The two rows agree in every column.
  ghost predicate SameRow(t: Table, i: nat, u: Table, j: nat) {
    && t.Shaped() && u.Shaped() && i < |t.ts| && j < |u.ts|
    && t.ts[i] == u.ts[j] && t.open[i] == u.open[j] && t.high[i] == u.high[j] && t.low[i] == u.low[j]
    && t.close[i] == u.close[j] && t.volume[i] == u.volume[j]
  }

  /** The sort moves whole rows. */
  lemma SortedRow(raw: Table, order: seq<nat>, k: nat)
    requires raw.Shaped() && Orders(order, raw.ts) && k < |order|
    ensures SameRow(Rearranged(raw, order), k, raw, order[k])
  {
  }

  /** De-duplication keeps whole rows: each is the last of its stamp in the sorted table. */
  lemma KeptRow(t: Table, k: nat) returns (i: nat)
    requires t.Shaped() && Sorted(t.ts) && k < |Dedup(t).ts|
    ensures SameRow(Dedup(t), k, t, i) && forall j :: i < j < |t.ts| ==> t.ts[j] != t.ts[i]
  {
    i := Kept(t.ts)[k];
    assert i in Kept(t.ts);
    KeptLast(t.ts, i);
  }

  // So does the cleaned table, as far as its stamp is concerned.
  lemma CleanedRow(t: Table, remove: bool, deviations: real, fill: Fill, k: nat) returns (i: nat)
    requires t.Shaped() && Sorted(t.ts) && k < |Clean(t, remove, deviations, fill).ts|
    ensures i < |t.ts| && Clean(t, remove, deviations, fill).ts[k] == t.ts[i]
    ensures forall j :: i < j < |t.ts| ==> t.ts[j] != t.ts[i]
  {
    CleanedTs(t, remove, deviations, fill);
    hide Clean, Dedup;
    i := KeptRow(t, k);
  }

  /** The volume is the kept row's own, or zero where it has none. */
  lemma VolumeIs(t: Table, remove: bool, deviations: real, fill: Fill, k: nat)
    requires t.Shaped() && k < |Dedup(t).ts|
    ensures |Clean(t, remove, deviations, fill).ts| == |Dedup(t).ts|
    ensures Clean(t, remove, deviations, fill).volume[k] ==
            if Dedup(t).volume[k].Some? then Dedup(t).volume[k] else Some(0.0)
  {
    CleanedTs(t, remove, deviations, fill);
    hide Dedup, FillColumn, Replaced, Detect;
  }

  /******* The envelope in numbers *******/

  // Low, open, close and high are as prices of one bar must be, as far as they are there.
  ghost predicate WithinBar(o: Option<real>, h: Option<real>, l: Option<real>, c: Option<real>) {
    && AtMost(l, h) && AtMost(o, h) && AtMost(c, h) && AtMost(l, o) && AtMost(l, c)
  }

  ghost predicate AtMost(a: Option<real>, b: Option<real>) {
    a.Some? && b.Some? ==> a.value <= b.value
  }

  lemma InvalidIs(o: Option<real>, h: Option<real>, l: Option<real>, c: Option<real>)
    ensures Invalid(o, h, l, c) <==> !WithinBar(o, h, l, c)
  {
  }

  /** Every cleaned row is such a bar. */
  lemma CleanBar(t: Table, remove: bool, deviations: real, fill: Fill, k: nat)
    requires t.Shaped() && k < |Clean(t, remove, deviations, fill).ts|
    ensures var r := Clean(t, remove, deviations, fill); WithinBar(r.open[k], r.high[k], r.low[k], r.close[k])
  {
    var r := Clean(t, remove, deviations, fill);
    CleanEnvelope(t, remove, deviations, fill, k);
    InvalidIs(r.open[k], r.high[k], r.low[k], r.close[k]);
    hide Clean, WithinBar, Invalid;
  }

  /** The last step leaves open and close alone, and high and low where the row is such a bar; elsewhere the high
      becomes the highest of its prices and the low the lowest of the others. */
  lemma EnvelopeFixed(t: Table, remove: bool, deviations: real, fill: Fill, k: nat)
    requires t.Shaped() && k < |Prepared(t, remove, deviations, fill).ts|
    ensures var p, r := Prepared(t, remove, deviations, fill), Clean(t, remove, deviations, fill);
            && r.ts == p.ts && r.open == p.open && r.close == p.close && r.volume == p.volume
            && if WithinBar(p.open[k], p.high[k], p.low[k], p.close[k])
               then r.high[k] == p.high[k] && r.low[k] == p.low[k]
               else
                 && Highest(r.high[k], [p.open[k], p.high[k], p.low[k], p.close[k]])
                 && Lowest(r.low[k], [p.open[k], p.low[k], p.close[k]])
  {
    var p := Prepared(t, remove, deviations, fill);
    var o, h, l, c := p.open[k], p.high[k], p.low[k], p.close[k];
    InvalidIs(o, h, l, c);
    hide Prepared, WithinBar;
    if Invalid(o, h, l, c) {
      HighestIs(o, h, l, c);
    } else {
      SoundPrices(o, h, l, c);
    }
    hide Highest, Lowest, Invalid, FixedHigh, FixedLow;
  }

  ghost predicate Highest(x: Option<real>, prices: seq<Option<real>>) {
    x.Some? && x in prices && forall i :: 0 <= i < |prices| && prices[i].Some? ==> prices[i].value <= x.value
  }

  ghost predicate Lowest(x: Option<real>, prices: seq<Option<real>>) {
    x.Some? && x in prices && forall i :: 0 <= i < |prices| && prices[i].Some? ==> x.value <= prices[i].value
  }

  lemma HighestIs(o: Option<real>, h: Option<real>, l: Option<real>, c: Option<real>)
    requires Invalid(o, h, l, c)
    ensures Highest(FixedHigh(o, h, l, c), [o, h, l, c]) && Lowest(FixedLow(o, h, l, c), [o, l, c])
  {
    FixedIsTight(o, h, l, c);
    hide Invalid, FixedHigh, FixedLow;
  }
}
