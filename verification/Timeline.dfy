/** Time-stamped records: strictly ascending sequences, and the de-duplicate-and-sort step that ends
    every download loop. */
module Timeline {
  import opened Common

  // A record whose value is None is one the exchange could not give a finite value for.
  datatype Rec = Rec(ts: int, value: Option<real>)

  ghost predicate Ascending(s: seq<Rec>) {
    forall i, j :: 0 <= i < j < |s| ==> s[i].ts < s[j].ts
  }

  lemma PrefixBelow(s: seq<Rec>)
    requires Ascending(s) && s != []
    ensures Ascending(s[..|s| - 1])
    ensures forall x :: x in s[..|s| - 1] ==> x.ts < s[|s| - 1].ts
  {
    forall x | x in s[..|s| - 1] ensures x.ts < s[|s| - 1].ts {
      var i :| 0 <= i < |s| - 1 && s[i] == x;
    }
  }

  lemma AppendAscending(s: seq<Rec>, r: Rec)
    requires Ascending(s) && forall x :: x in s ==> x.ts < r.ts
    ensures Ascending(s + [r])
  {
  }

  // Insert by stamp, keeping what is there when the stamp is already present.
  function Insert(s: seq<Rec>, r: Rec): seq<Rec> {
    if s == [] || r.ts < s[0].ts then [r] + s
    else if r.ts == s[0].ts then s
    else [s[0]] + Insert(s[1..], r)
  }

  // drop_duplicates(keep first) followed by sort_values on the stamp.
  function Tidy(rows: seq<Rec>): seq<Rec> {
    if rows == [] then [] else Insert(Tidy(rows[..|rows| - 1]), rows[|rows| - 1])
  }

  lemma {:induction false} InsertKeeps(s: seq<Rec>, r: Rec)
    requires Ascending(s)
    ensures Ascending(Insert(s, r))
    ensures forall x :: x in Insert(s, r) <==> x in s || (x == r && forall y :: y in s ==> y.ts != r.ts)
  {
    if s == [] || r.ts < s[0].ts {
    } else if r.ts == s[0].ts {
      assert s[0] in s;
    } else {
      var rest := Insert(s[1..], r);
      InsertKeeps(s[1..], r);
      assert s == [s[0]] + s[1..];
      forall i | 0 <= i < |rest| ensures s[0].ts < rest[i].ts {
        assert rest[i] in rest;
        if rest[i] in s[1..] { var k :| 0 <= k < |s[1..]| && s[1..][k] == rest[i]; }
      }
    }
  }

  predicate HasStamp(s: seq<Rec>, ts: int) {
    exists y :: y in s && y.ts == ts
  }

  lemma InsertStamps(s: seq<Rec>, r: Rec)
    requires Ascending(s)
    ensures forall ts :: HasStamp(Insert(s, r), ts) <==> HasStamp(s, ts) || ts == r.ts
  {
    InsertKeeps(s, r);
    hide Insert, Ascending;
    var t := Insert(s, r);
    forall ts ensures HasStamp(t, ts) <==> HasStamp(s, ts) || ts == r.ts {
      if HasStamp(s, ts) { var y :| y in s && y.ts == ts; assert y in t; }
      if ts == r.ts && !HasStamp(s, ts) { assert r in t; }
      if HasStamp(t, ts) { var y :| y in t && y.ts == ts; assert y in s || y == r; }
    }
  }

  lemma {:induction false} TidyKeeps(rows: seq<Rec>)
    ensures Ascending(Tidy(rows))
    ensures forall x :: x in Tidy(rows) ==> x in rows
    ensures forall ts :: HasStamp(Tidy(rows), ts) <==> HasStamp(rows, ts)
  {
    if rows != [] {
      var before, r := rows[..|rows| - 1], rows[|rows| - 1];
      TidyKeeps(before);
      InsertKeeps(Tidy(before), r);
      InsertStamps(Tidy(before), r);
      LastStamp(rows);
      hide Insert, Ascending, HasStamp;
      assert Tidy(rows) == Insert(Tidy(before), r);
    }
  }

  // A row that is the first of its stamp.
  ghost predicate FirstAt(rows: seq<Rec>, i: nat) {
    i < |rows| && forall j :: 0 <= j < i ==> rows[j].ts != rows[i].ts
  }

  /** Of the rows with one stamp the first is kept. */
  lemma {:induction false} TidyFirst(rows: seq<Rec>, i: nat)
    requires FirstAt(rows, i)
    ensures rows[i] in Tidy(rows)
  {
    var before, r := rows[..|rows| - 1], rows[|rows| - 1];
    TidyKeeps(before);
    InsertKeeps(Tidy(before), r);
    if i < |before| {
      assert FirstAt(before, i);
      TidyFirst(before, i);
    } else {
      assert forall y :: y in before ==> y.ts != r.ts;
    }
  }

  lemma LastStamp(rows: seq<Rec>)
    requires rows != []
    ensures forall ts :: HasStamp(rows, ts) <==> HasStamp(rows[..|rows| - 1], ts) || ts == rows[|rows| - 1].ts
  {
    assert rows == rows[..|rows| - 1] + [rows[|rows| - 1]];
    forall ts ensures HasStamp(rows, ts) <==> HasStamp(rows[..|rows| - 1], ts) || ts == rows[|rows| - 1].ts {
      if HasStamp(rows, ts) { var y :| y in rows && y.ts == ts; }
    }
  }

  // An ascending sequence is determined by its records.
  lemma {:induction false} AscendingUnique(s: seq<Rec>, t: seq<Rec>)
    requires Ascending(s) && Ascending(t) && forall x :: x in s <==> x in t
    ensures s == t
  {
    assert s != [] ==> s[0] in s;
    assert t != [] ==> t[0] in t;
    if s != [] {
      HeadsAgree(s, t);
      forall x ensures x in s[1..] <==> x in t[1..] {
        TailMember(s, x);
        TailMember(t, x);
      }
      AscendingUnique(s[1..], t[1..]);
      assert s == [s[0]] + s[1..] && t == [t[0]] + t[1..];
    }
  }

  lemma HeadsAgree(s: seq<Rec>, t: seq<Rec>)
    requires Ascending(s) && Ascending(t) && s != [] && t != [] && s[0] in t && t[0] in s
    ensures s[0] == t[0]
  {
    var i :| 0 <= i < |t| && t[i] == s[0];
    var j :| 0 <= j < |s| && s[j] == t[0];
  }

  lemma TailMember(s: seq<Rec>, x: Rec)
    requires Ascending(s) && s != []
    ensures x in s[1..] <==> x in s && x != s[0]
  {
    assert s == [s[0]] + s[1..];
  }

  lemma {:induction false} InsertLast(s: seq<Rec>, r: Rec)
    requires forall x :: x in s ==> x.ts < r.ts
    ensures Insert(s, r) == s + [r]
  {
    if s != [] {
      assert s[0] in s;
      InsertLast(s[1..], r);
      assert s == [s[0]] + s[1..];
    }
  }

  // Rows that are already in order stay as they are.
  lemma {:induction false} TidyAscending(rows: seq<Rec>)
    requires Ascending(rows)
    ensures Tidy(rows) == rows
  {
    if rows != [] {
      var before, r := rows[..|rows| - 1], rows[|rows| - 1];
      TidyAscending(before);
      InsertLast(before, r);
    }
  }
}
