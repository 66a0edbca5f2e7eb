/** Columns of a table with missing values: forward fill, linear interpolation, and stamps in order. */
module Columns {
  import opened Common

  type Column = seq<Option<real>>

  predicate Sorted(ts: seq<int>) {
    forall i, j :: 0 <= i < j < |ts| ==> ts[i] <= ts[j]
  }

  predicate StrictlySorted(ts: seq<int>) {
    forall i, j :: 0 <= i < j < |ts| ==> ts[i] < ts[j]
  }

  /******* Forward fill *******/

  function Ffill(s: Column): (r: Column)
    ensures |r| == |s|
  {
    if s == [] then []
    else
      var before, last := Ffill(s[..|s| - 1]), s[|s| - 1];
      before + [if last.Some? || before == [] then last else before[|before| - 1]]
  }

  // What forward fill computes, row by row.
  lemma {:induction false} FfillStep(s: Column, i: nat)
    requires i < |s|
    ensures Ffill(s)[i] == if s[i].Some? || i == 0 then s[i] else Ffill(s)[i - 1]
  {
    if i < |s| - 1 {
      FfillStep(s[..|s| - 1], i);
    }
  }

  predicate NoGap(s: Column) {
    forall i :: 0 < i < |s| && s[i].None? ==> s[i - 1].None?
  }

  predicate Complete(s: Column) {
    forall i :: 0 <= i < |s| ==> s[i].Some?
  }

  lemma FfillNoGap(s: Column)
    ensures NoGap(Ffill(s))
  {
    forall i | 0 < i < |s| && Ffill(s)[i].None? ensures Ffill(s)[i - 1].None? {
      FfillStep(s, i);
    }
  }

  // A column is its own forward fill exactly when nothing follows a value but values.
  lemma {:induction false} FfillFixed(s: Column)
    ensures Ffill(s) == s <==> NoGap(s)
  {
    FfillNoGap(s);
    if s != [] && NoGap(s) {
      FfillFixed(s[..|s| - 1]);
    }
  }

  lemma {:induction false} FfillComplete(s: Column)
    requires s != [] ==> s[0].Some?
    ensures Complete(Ffill(s))
  {
    if |s| > 1 {
      FfillComplete(s[..|s| - 1]);
    }
  }

  function FillZero(s: Column): (r: Column)
    ensures |r| == |s|
  {
    seq(|s|, i requires 0 <= i < |s| => if s[i].Some? then s[i] else Some(0.0))
  }

  // Forward fill sees nothing of the rows below.
  lemma {:induction false} FfillPrefix(s: Column, n: nat)
    requires n <= |s|
    ensures Ffill(s[..n]) == Ffill(s)[..n]
  {
    if n < |s| {
      FfillPrefix(s[..|s| - 1], n);
      assert s[..|s| - 1][..n] == s[..n];
    } else {
      assert s[..n] == s;
    }
  }

  /******* Linear interpolation *******/

  // The last row before i that has a value.
  function Before(s: Column, i: nat): (a: Option<nat>)
    requires i <= |s|
    ensures a.Some? ==> a.value < i && s[a.value].Some? && forall k :: a.value < k < i ==> s[k].None?
    ensures a.None? ==> forall k :: 0 <= k < i ==> s[k].None?
  {
    if i == 0 then None else if s[i - 1].Some? then Some(i - 1) else Before(s, i - 1)
  }

  // The first row from i on that has one.
  function From(s: Column, i: nat): (b: Option<nat>)
    requires i <= |s|
    ensures b.Some? ==> i <= b.value < |s| && s[b.value].Some? && forall k :: i <= k < b.value ==> s[k].None?
    ensures b.None? ==> forall k :: i <= k < |s| ==> s[k].None?
    decreases |s| - i
  {
    if i == |s| then None else if s[i].Some? then Some(i) else From(s, i + 1)
  }

  function Part(d: real, q: real): real {
    d * q
  }

  // A value on the line between two rows.
  function Between(x: real, y: real, a: nat, i: nat, b: nat): real
    requires a < i < b
  {
    x + Part(y - x, ((i - a) as real) / ((b - a) as real))
  }

  function Interpolate(s: Column, i: nat): Option<real>
    requires i < |s|
  {
    if s[i].Some? || Before(s, i).None? then s[i]
    else
      var a := Before(s, i).value;
      match From(s, i)
      case None => s[a]
      case Some(b) => Some(Between(s[a].value, s[b].value, a, i, b))
  }

  // Gaps between values are filled along a line, gaps at the end with the last value, and gaps at the
  // start are left.
  function Interpolated(s: Column): (r: Column)
    ensures |r| == |s|
  {
    seq(|s|, i requires 0 <= i < |s| => Interpolate(s, i))
  }

  lemma Proportion(a: nat, i: nat, b: nat)
    requires a < i < b
    ensures 0.0 < ((i - a) as real) / ((b - a) as real) < 1.0
  {
    var q, d := ((i - a) as real) / ((b - a) as real), (b - a) as real;
    PositiveQuotient((i - a) as real, d);
    PositiveQuotient((b - i) as real, d);
    assert q + ((b - i) as real) / d == 1.0 by {
      PositiveQuotient(d, d);
      assert d / d == 1.0;
      assert ((i - a) as real) / d + ((b - i) as real) / d == d / d;
    }
  }

  /** A filled gap lies strictly between its neighbours, or is level with them. */
  lemma BetweenNeighbours(x: real, y: real, a: nat, i: nat, b: nat)
    requires a < i < b
    ensures x < y ==> x < Between(x, y, a, i, b) < y
    ensures x > y ==> x > Between(x, y, a, i, b) > y
    ensures x == y ==> Between(x, y, a, i, b) == x
  {
    Proportion(a, i, b);
    var q := ((i - a) as real) / ((b - a) as real);
    hide Part;
    if x < y {
      Share(y - x, q);
    } else if x > y {
      Share(x - y, q);
      Backwards(x - y, y - x, q);
    } else {
      Backwards(x - y, y - x, q);
    }
  }

  // Products are taken under the name of Part, so that equal factors make equal parts.
  lemma PartPositive(d: real, q: real)
    requires d > 0.0 && q > 0.0
    ensures Part(d, q) > 0.0
  {
  }

  lemma PartNegated(d: real, q: real)
    ensures Part(-d, q) == -Part(d, q)
  {
  }

  lemma PartLeft(d: real, q: real)
    ensures Part(d, 1.0 - q) == d - Part(d, q)
  {
  }

  lemma Backwards(d: real, e: real, q: real)
    requires e == -d
    ensures Part(e, q) == -Part(d, q)
  {
    hide Part;
    PartNegated(d, q);
  }

  // A part of a distance is shorter.
  lemma Share(d: real, q: real)
    requires d > 0.0 && 0.0 < q < 1.0
    ensures 0.0 < Part(d, q) < d
  {
    hide Part;
    PartPositive(d, q);
    PartPositive(d, 1.0 - q);
    PartLeft(d, q);
  }

  lemma BeforeIs(s: Column, i: nat, a: nat)
    requires a < i <= |s| && s[a].Some? && forall k :: a < k < i ==> s[k].None?
    ensures Before(s, i) == Some(a)
  {
  }

  lemma FromIs(s: Column, i: nat, b: nat)
    requires i <= b < |s| && s[b].Some? && forall k :: i <= k < b ==> s[k].None?
    ensures From(s, i) == Some(b)
  {
  }

  // The value at i of a line from x at a to y at b, told by weights.
  lemma OnTheLine(x: real, y: real, a: nat, i: nat, b: nat)
    requires a < i < b
    ensures Between(x, y, a, i, b) * ((b - a) as real) == x * ((b - i) as real) + y * ((i - a) as real)
  {
    var e, d := (i - a) as real, (b - a) as real;
    PositiveQuotient(e, d);
    assert Between(x, y, a, i, b) * d == x * d + (y - x) * ((e / d) * d);
    assert x * d + (y - x) * e == x * (d - e) + y * e;
  }

  /** A gap between values at a and b lies on the line through them; a gap at the end has the last value, and one
      at the start stays. */
  lemma InterpolatedIs(s: Column, a: nat, i: nat, b: nat)
    requires a <= i < |s| && i < b <= |s|
    requires s[a].Some? && (b < |s| ==> s[b].Some?) && forall k :: a < k < b ==> s[k].None?
    ensures i == a || b == |s| ==> Interpolated(s)[i] == s[a]
    ensures a < i && b < |s| ==>
              && Interpolated(s)[i].Some?
              && Interpolated(s)[i].value * ((b - a) as real) ==
                 s[a].value * ((b - i) as real) + s[b].value * ((i - a) as real)
    ensures forall k :: 0 <= k < |s| && (forall j :: 0 <= j <= k ==> s[j].None?) ==> Interpolated(s)[k].None?
  {
    if a < i {
      BeforeIs(s, i, a);
      if b < |s| {
        FromIs(s, i, b);
        OnTheLine(s[a].value, s[b].value, a, i, b);
      }
    }
    hide Between, From;
  }

  // A gap that interpolation leaves has no value above it.
  lemma InterpolatedNoGap(s: Column)
    ensures NoGap(Interpolated(s))
  {
    forall i | 0 < i < |s| && Interpolated(s)[i].None? ensures Interpolated(s)[i - 1].None? {
      hide Between, From;
      assert s[i].None? && Before(s, i).None? && s[i - 1].None? && Before(s, i - 1).None?;
    }
  }

  lemma {:induction false} NothingAbove(s: Column, i: nat)
    requires NoGap(s) && i < |s| && s[i].None?
    ensures Before(s, i).None?
  {
    if i > 0 {
      NothingAbove(s, i - 1);
    }
  }

  // A column is its own interpolation exactly when nothing follows a value but values.
  lemma InterpolatedFixed(s: Column)
    ensures Interpolated(s) == s <==> NoGap(s)
  {
    InterpolatedNoGap(s);
    if NoGap(s) {
      forall i | 0 <= i < |s| ensures Interpolated(s)[i] == s[i] {
        if s[i].None? { NothingAbove(s, i); }
      }
    }
  }

  lemma InterpolatedComplete(s: Column)
    requires s != [] ==> s[0].Some?
    ensures Complete(Interpolated(s))
  {
  }

  /** Interpolation looks ahead exactly where forward fill would have filled from above and a value
      follows: there, and only there, the rows below decide the value. */
  lemma InterpolationLooksAhead(s: Column, i: nat)
    requires i < |s|
    ensures (exists t: Column ::
               |t| == |s| && t[..i + 1] == s[..i + 1] && Interpolated(t)[i] != Interpolated(s)[i]) <==>
            s[i].None? && Before(s, i).Some? && i + 1 < |s|
  {
    if s[i].None? && Before(s, i).Some? && i + 1 < |s| {
      var t := DifferentBelow(s, i);
    } else {
      forall t: Column | |t| == |s| && t[..i + 1] == s[..i + 1] ensures Interpolated(t)[i] == Interpolated(s)[i] {
        SameBefore(s, t, i);
      }
    }
  }

  lemma {:induction false} SameBefore(s: Column, t: Column, i: nat)
    requires i < |s| == |t| && t[..i + 1] == s[..i + 1]
    ensures t[i] == s[i] && Before(t, i) == Before(s, i)
    ensures i + 1 == |s| && s[i].None? ==> From(s, i).None? && From(t, i).None?
    ensures Before(s, i).Some? ==> t[Before(s, i).value] == s[Before(s, i).value]
  {
    assert t[..i + 1][i] == t[i] && s[..i + 1][i] == s[i];
    if i > 0 {
      assert t[..i] == t[..i + 1][..i] && s[..i] == s[..i + 1][..i];
      SameBefore(s, t, i - 1);
    }
  }

  // With a value right below it, a gap is filled from that one and the last one above.
  lemma FilledFromNext(s: Column, i: nat, y: real)
    requires i + 1 < |s| && s[i].None? && Before(s, i).Some?
    ensures var t, a := s[i + 1 := Some(y)], Before(s, i).value;
            && t[..i + 1] == s[..i + 1]
            && Interpolated(t)[i] == Some(Between(s[a].value, y, a, i, i + 1))
  {
    var t := s[i + 1 := Some(y)];
    assert t[..i + 1] == s[..i + 1];
    SameBefore(s, t, i);
    assert From(t, i) == Some(i + 1);
    hide Between, Before, From;
  }

  // Of two different values there, one makes the difference.
  lemma DifferentBelow(s: Column, i: nat) returns (t: Column)
    requires i + 1 < |s| && s[i].None? && Before(s, i).Some?
    ensures |t| == |s| && t[..i + 1] == s[..i + 1] && Interpolated(t)[i] != Interpolated(s)[i]
  {
    hide *;
    var a := Before(s, i).value;
    var x := s[a].value;
    FilledFromNext(s, i, x + 1.0);
    FilledFromNext(s, i, x);
    BetweenNeighbours(x, x + 1.0, a, i, i + 1);
    BetweenNeighbours(x, x, a, i, i + 1);
    t := s[i + 1 := Some(x)];
    if Interpolated(t)[i] == Interpolated(s)[i] {
      t := s[i + 1 := Some(x + 1.0)];
    }
  }
}
