/** When the order in which the environment lists its variables decides the configuration. */
module EnvOrder {
  import opened Common
  import opened ConfigMerge
  import opened EnvTree

  ghost predicate AnyOrder(items: seq<Var>) {
    forall others: seq<Var> :: multiset(others) == multiset(items) ==> Assembled(others) == Assembled(items)
  }

  /******* One order always works: deepest paths first *******/

  function InsertVar(sorted: seq<Var>, x: Var): (r: seq<Var>)
    ensures multiset(r) == multiset(sorted) + multiset{x}
  {
    if sorted == [] || |sorted[|sorted| - 1].path| >= |x.path| then sorted + [x]
    else
      assert sorted == sorted[..|sorted| - 1] + [sorted[|sorted| - 1]];
      InsertVar(sorted[..|sorted| - 1], x) + [sorted[|sorted| - 1]]
  }

  function DeepestFirst(items: seq<Var>): (r: seq<Var>)
    ensures multiset(r) == multiset(items)
  {
    if items == [] then []
    else
      assert items == items[..|items| - 1] + [items[|items| - 1]];
      InsertVar(DeepestFirst(items[..|items| - 1]), items[|items| - 1])
  }

  ghost predicate Descending(items: seq<Var>) {
    forall i, j :: 0 <= i < j < |items| ==> |items[i].path| >= |items[j].path|
  }

  lemma {:induction false} InsertDescends(sorted: seq<Var>, x: Var)
    requires Descending(sorted)
    ensures Descending(InsertVar(sorted, x))
  {
    if sorted != [] && |sorted[|sorted| - 1].path| < |x.path| {
      var before := sorted[..|sorted| - 1];
      InsertDescends(before, x);
      var r := InsertVar(before, x);
      hide InsertVar;
      forall i | 0 <= i < |r| ensures |r[i].path| >= |sorted[|sorted| - 1].path| {
        Inserted(before, x, r, i);
      }
    }
  }

  lemma Inserted(before: seq<Var>, x: Var, r: seq<Var>, i: nat)
    requires multiset(r) == multiset(before) + multiset{x} && i < |r|
    ensures r[i] == x || r[i] in before
  {
    assert r[i] in multiset(r);
  }

  lemma {:induction false} DeepestDescends(items: seq<Var>)
    ensures Descending(DeepestFirst(items))
  {
    if items != [] {
      DeepestDescends(items[..|items| - 1]);
      InsertDescends(DeepestFirst(items[..|items| - 1]), items[|items| - 1]);
    }
  }

  // With deepest paths first, every plain value so far is at least as deep as what follows.
  lemma {:induction false} DescendingWorks(items: seq<Var>)
    requires Descending(items)
    ensures Assembled(items).Ok?
    ensures forall p: Path :: KindAt(Assembled(items).value, p).Plain? ==>
        items != [] && |p| >= |items[|items| - 1].path|
  {
    if items == [] {
      forall p: Path ensures !KindAt(EMPTY, p).Plain? {
        NothingInEmpty(p);
      }
    } else {
      var before, x := items[..|items| - 1], items[|items| - 1];
      DescendingWorks(before);
      var tree := Assembled(before).value;
      SetNestedFails(tree, x.path, x.value);
      if Covers(tree, x.path) {
        var q := CoveredBy(tree, x.path);
        assert false;
      }
      forall p: Path | KindAt(Assembled(items).value, p).Plain? ensures |p| >= |x.path| {
        SetNestedAt(tree, x.path, x.value, p);
        assert KindAt(tree, p).Plain? ==> before != [] && |p| >= |before[|before| - 1].path|;
      }
    }
  }

  /******* Two variables that conflict *******/

  // A variable that continues another's path cannot follow it.
  lemma ContinuingFails(x: Var, y: Var, rest: seq<Var>)
    requires x.path < y.path
    ensures Assembled([x, y] + rest).Err?
  {
    var tree := Assembled([x]);
    assert [] + [x] == [x] && [x] + [y] == [x, y];
    AssembledStep([], x);
    AssembledStep([x], y);
    SetNestedFails(EMPTY, x.path, x.value);
    NothingInEmpty(x.path);
    SetNestedAt(EMPTY, x.path, x.value, x.path);
    PlainCovers(tree.value, x.path, y.path);
    SetNestedFails(tree.value, y.path, y.value);
    ErrorStays([x, y], rest);
  }

  lemma {:induction false} PlainCovers(v: Value, q: Path, p: Path)
    requires KindAt(v, q).Plain? && q < p
    ensures Covers(v, p)
  {
    if q != [] {
      PlainCovers(v.entries[q[0]], q[1..], p[1..]);
    }
  }

  // Of two values for one path the later stays.
  lemma LaterStays(items: seq<Var>, x: Var)
    requires Assembled(items + [x]).Ok?
    ensures KindAt(Assembled(items + [x]).value, x.path) == Plain(x.value)
  {
    AssembledStep(items, x);
    SetNestedAt(Assembled(items).value, x.path, x.value, x.path);
  }

  lemma SomeOrderWorks(items: seq<Var>)
    requires AnyOrder(items)
    ensures Assembled(items).Ok?
  {
    DeepestDescends(items);
    DescendingWorks(DeepestFirst(items));
    assert Assembled(DeepestFirst(items)) == Assembled(items);
  }

  lemma ConflictFails(items: seq<Var>, x: Var, y: Var, rest: seq<Var>)
    requires multiset(items) == multiset{x} + multiset{y} + multiset(rest) && x != y && x.path <= y.path
    ensures !AnyOrder(items)
  {
    hide *;
    if AnyOrder(items) {
      SomeOrderWorks(items);
      var xy, yx := rest + [x] + [y], rest + [y] + [x];
      Agree(items, [x, y] + rest);
      Agree(items, xy);
      Agree(items, yx);
      if x.path == y.path {
        LaterStays(rest + [x], y);
        LaterStays(rest + [y], x);
      } else {
        ContinuingFails(x, y, rest);
      }
      assert false;
    }
  }

  lemma Agree(items: seq<Var>, others: seq<Var>)
    requires AnyOrder(items) && multiset(others) == multiset(items)
    ensures Assembled(others) == Assembled(items)
  {
  }

  lemma ConflictShows(items: seq<Var>, i: nat, j: nat)
    requires i < |items| && j < |items| && items[i] != items[j] && items[i].path <= items[j].path
    ensures !AnyOrder(items)
  {
    hide AnyOrder;
    var others := TakeOut(items, i);
    var at :| 0 <= at < |others| && others[at] == items[j];
    var rest := TakeOut(others, at);
    ConflictFails(items, items[i], items[j], rest);
  }

  /** The environment gives the same configuration in whatever order it is listed exactly when no
      variable's path equals or continues another's. */
  lemma OrderMattersExactly(items: seq<Var>)
    ensures AnyOrder(items) <==> Consistent(items)
  {
    if Consistent(items) {
      forall others: seq<Var> | multiset(others) == multiset(items) ensures Assembled(others) == Assembled(items) {
        forall x ensures x in items <==> x in others {
          assert x in items <==> x in multiset(items);
          assert x in others <==> x in multiset(others);
        }
        SameVariablesSameTree(items, others);
      }
    } else {
      var x, y :| x in items && y in items && x.path <= y.path && x != y;
      var i :| 0 <= i < |items| && items[i] == x;
      var j :| 0 <= j < |items| && items[j] == y;
      ConflictShows(items, i, j);
    }
  }
}
