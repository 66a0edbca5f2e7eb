/** What a plan that passes the pre-check looks like: its operations never touch one another. */
module ArchiveShape {
  import opened Common
  import opened ArchiveTree
  import opened ArchivePlan

  /******* The plan, flattened *******/

  function AllMoves(plan: seq<Entry>): seq<Path> {
    if plan == [] then [] else AllMoves(plan[..|plan| - 1]) + plan[|plan| - 1].moves
  }

  function AllRelabels(plan: seq<Entry>): seq<Relocation> {
    if plan == [] then [] else AllRelabels(plan[..|plan| - 1]) + plan[|plan| - 1].relabels
  }

  function Archived(stamp: string, subs: seq<Path>): seq<Relocation> {
    seq(|subs|, i requires 0 <= i < |subs| => ArchiveOp(stamp, subs[i]))
  }

  ghost predicate Passes(t: Tree, stamp: string, e: Entry) {
    && e.replacement.Some?
    && (forall sub :: sub in e.moves ==> Reason(t, ArchiveOp(stamp, sub)).None?)
    && (forall op :: op in e.relabels ==> Reason(t, op).None?)
  }

  lemma {:induction false} CheckMovesResult(t: Tree, stamp: string, subs: seq<Path>, n: nat, v: Verdict)
    requires n <= |subs|
    ensures var r := CheckMoves(t, stamp, subs, n, v);
            && v.problems <= r.problems
            && r.relabels == v.relabels
            && (r.problems == v.problems <==> forall i :: 0 <= i < n ==> Reason(t, ArchiveOp(stamp, subs[i])).None?)
            && (r.problems == v.problems ==> r.moves == v.moves + Archived(stamp, subs[..n]))
  {
    if n > 0 {
      CheckMovesResult(t, stamp, subs, n - 1, v);
      assert Archived(stamp, subs[..n]) == Archived(stamp, subs[..n - 1]) + [ArchiveOp(stamp, subs[n - 1])];
    }
  }

  lemma {:induction false} CheckRelabelsResult(t: Tree, ops: seq<Relocation>, n: nat, v: Verdict)
    requires n <= |ops|
    ensures var r := CheckRelabels(t, ops, n, v);
            && v.problems <= r.problems
            && r.moves == v.moves
            && (r.problems == v.problems <==> forall i :: 0 <= i < n ==> Reason(t, ops[i]).None?)
            && (r.problems == v.problems ==> r.relabels == v.relabels + ops[..n])
  {
    if n > 0 {
      CheckRelabelsResult(t, ops, n - 1, v);
    }
  }

  lemma CheckEntryResult(t: Tree, stamp: string, e: Entry, v: Verdict)
    ensures var r := CheckEntry(t, stamp, e, v);
            && v.problems <= r.problems
            && (r.problems == v.problems <==> Passes(t, stamp, e))
            && (r.problems == v.problems ==>
              r.moves == v.moves + Archived(stamp, e.moves) && r.relabels == v.relabels + e.relabels)
  {
    if e.replacement.Some? {
      CheckMovesResult(t, stamp, e.moves, |e.moves|, v);
      CheckRelabelsResult(t, e.relabels, |e.relabels|, CheckMoves(t, stamp, e.moves, |e.moves|, v));
      assert e.moves[..|e.moves|] == e.moves && e.relabels[..|e.relabels|] == e.relabels;
    }
  }

  // A check that starts without problems ends without any exactly when the entry passes.
  lemma FirstProblem(t: Tree, stamp: string, e: Entry, v: Verdict)
    ensures var r := CheckEntry(t, stamp, e, v);
            && (r.problems == [] <==> v.problems == [] && Passes(t, stamp, e))
            && (r.problems == [] ==>
              r.moves == v.moves + Archived(stamp, e.moves) && r.relabels == v.relabels + e.relabels)
  {
    hide *;
    CheckEntryResult(t, stamp, e, v);
  }

  lemma CheckPlanNext(t: Tree, stamp: string, plan: seq<Entry>, n: nat)
    requires 0 < n <= |plan|
    ensures var v, r, e := CheckPlan(t, stamp, plan, n - 1), CheckPlan(t, stamp, plan, n), plan[n - 1];
            && (r.problems == [] <==> v.problems == [] && Passes(t, stamp, e))
            && (r.problems == [] ==>
              r.moves == v.moves + Archived(stamp, e.moves) && r.relabels == v.relabels + e.relabels)
  {
    hide CheckEntry, Passes, Archived;
    FirstProblem(t, stamp, plan[n - 1], CheckPlan(t, stamp, plan, n - 1));
  }

  lemma FlatNext(stamp: string, plan: seq<Entry>, n: nat)
    requires 0 < n <= |plan|
    ensures Archived(stamp, AllMoves(plan[..n])) ==
            Archived(stamp, AllMoves(plan[..n - 1])) + Archived(stamp, plan[n - 1].moves)
    ensures AllRelabels(plan[..n]) == AllRelabels(plan[..n - 1]) + plan[n - 1].relabels
  {
    hide AllMoves, AllRelabels, Archived;
    assert plan[..n] == plan[..n - 1] + [plan[n - 1]];
    AllMovesLast(plan[..n - 1], plan[n - 1]);
    ArchivedConcat(stamp, AllMoves(plan[..n - 1]), plan[n - 1].moves);
  }

  lemma {:induction false} CheckPlanResult(t: Tree, stamp: string, plan: seq<Entry>, n: nat)
    requires n <= |plan|
    ensures var v := CheckPlan(t, stamp, plan, n);
            && (v.problems == [] <==> forall i :: 0 <= i < n ==> Passes(t, stamp, plan[i]))
            && (v.problems == [] ==>
              v.moves == Archived(stamp, AllMoves(plan[..n])) && v.relabels == AllRelabels(plan[..n]))
  {
    if n > 0 {
      hide CheckEntry, Passes, AllMoves, AllRelabels, Archived;
      CheckPlanResult(t, stamp, plan, n - 1);
      CheckPlanNext(t, stamp, plan, n);
      hide CheckPlan;
      FlatNext(stamp, plan, n);
    }
  }

  lemma ArchivedConcat(stamp: string, a: seq<Path>, b: seq<Path>)
    ensures Archived(stamp, a + b) == Archived(stamp, a) + Archived(stamp, b)
  {
  }

  /******* Which operations a plan can hold *******/

  predicate IsTarget(name: string) {
    name in LegacyTargets()
  }

  predicate IsMeta(name: string) {
    name in MetaDirs()
  }

  predicate IsSub(relabelMeta: bool, sub: Path) {
    || (|sub| == 1 && IsTarget(sub[0]))
    || (|sub| == 2 && IsMeta(sub[0]) && IsTarget(sub[1]) && !(relabelMeta && sub[1] == RelabelTarget()))
  }

  predicate IsArchiveOp(stamp: string, relabelMeta: bool, o: Relocation) {
    ParquetDir() <= o.src && IsSub(relabelMeta, o.src[2..]) && o == ArchiveOp(stamp, o.src[2..])
  }

  predicate IsRelabelOp(relabelMeta: bool, o: Relocation) {
    relabelMeta && |o.src| == 4 && IsMeta(o.src[2]) && o == RelabelOp(o.src[2])
  }

  predicate IsOp(stamp: string, relabelMeta: bool, o: Relocation) {
    IsArchiveOp(stamp, relabelMeta, o) || IsRelabelOp(relabelMeta, o)
  }

  lemma Differ(p: Path, q: Path, i: nat)
    requires i < |p| && i < |q| && p[i] != q[i]
    ensures Apart(p, q)
  {
  }

  lemma TargetLength(name: string)
    requires IsTarget(name)
    ensures |name| == 8
  {
    var i :| 0 <= i < |LegacyTargets()| && LegacyTargets()[i] == name;
  }

  lemma MetaLength(name: string)
    requires IsMeta(name)
    ensures |name| > 12
  {
  }

  lemma SubsApart(relabelMeta: bool, sub: Path, sub': Path)
    requires IsSub(relabelMeta, sub) && IsSub(relabelMeta, sub') && sub != sub'
    ensures exists i :: 0 <= i < |sub| && i < |sub'| && sub[i] != sub'[i]
  {
    hide IsTarget, IsMeta;
    if |sub| == |sub'| == 1 {
      assert sub[0] != sub'[0];
    } else if |sub| == |sub'| == 2 {
      assert sub[0] != sub'[0] || sub[1] != sub'[1];
    } else if |sub| == 1 {
      TargetLength(sub[0]);
      MetaLength(sub'[0]);
    } else {
      TargetLength(sub'[0]);
      MetaLength(sub[0]);
    }
  }

  lemma ArchiveOpsApart(stamp: string, relabelMeta: bool, o: Relocation, o': Relocation)
    requires IsArchiveOp(stamp, relabelMeta, o) && IsArchiveOp(stamp, relabelMeta, o')
    ensures Apart(o.src, o'.dst)
    ensures o != o' ==> Apart(o.src, o'.src) && Apart(o.dst, o'.dst)
  {
    Differ(o.src, o'.dst, 1);
    if o != o' {
      SubsApart(relabelMeta, o.src[2..], o'.src[2..]);
      var i :| 0 <= i < |o.src[2..]| && i < |o'.src[2..]| && o.src[2..][i] != o'.src[2..][i];
      Differ(o.src, o'.src, i + 2);
      Differ(o.dst, o'.dst, i + 3);
    }
  }

  lemma RelabelOpsApart(relabelMeta: bool, o: Relocation, o': Relocation)
    requires IsRelabelOp(relabelMeta, o) && IsRelabelOp(relabelMeta, o')
    ensures Apart(o.src, o'.dst)
    ensures o != o' ==> Apart(o.src, o'.src) && Apart(o.dst, o'.dst)
  {
    hide IsMeta, Apart;
    if o != o' {
      assert o.src[2] != o'.src[2];
      Differ(o.src, o'.dst, 2);
      Differ(o.src, o'.src, 2);
      Differ(o.dst, o'.dst, 2);
    } else {
      Differ(o.src, o.dst, 3);
    }
  }

  lemma MixedOpsApart(stamp: string, relabelMeta: bool, o: Relocation, r: Relocation)
    requires IsArchiveOp(stamp, relabelMeta, o) && IsRelabelOp(relabelMeta, r)
    ensures Apart(o.src, r.src) && Apart(o.src, r.dst) && Apart(o.dst, r.src) && Apart(o.dst, r.dst)
  {
    hide IsTarget, IsMeta, Apart;
    Differ(o.dst, r.src, 1);
    Differ(o.dst, r.dst, 1);
    var sub := o.src[2..];
    assert o.src[2] == sub[0];
    if |sub| == 1 {
      TargetLength(sub[0]);
      MetaLength(r.src[2]);
      Differ(o.src, r.src, 2);
      Differ(o.src, r.dst, 2);
    } else if sub[0] != r.src[2] {
      Differ(o.src, r.src, 2);
      Differ(o.src, r.dst, 2);
    } else {
      assert o.src[3] == sub[1];
      TargetLength(sub[1]);
      Differ(o.src, r.src, 3);
      Differ(o.src, r.dst, 3);
    }
  }

  // No operation of a plan reaches into another, nor does one path take part in two of them.
  lemma PlanIndependent(stamp: string, relabelMeta: bool, ops: set<Relocation>)
    requires forall o :: o in ops ==> IsOp(stamp, relabelMeta, o)
    ensures Independent(ops)
  {
    hide IsArchiveOp, IsRelabelOp, Apart;
    forall o, o' | o in ops && o' in ops
      ensures Apart(o.src, o'.dst)
      ensures o != o' ==> Apart(o.src, o'.src) && Apart(o.dst, o'.dst)
    {
      if IsArchiveOp(stamp, relabelMeta, o) && IsArchiveOp(stamp, relabelMeta, o') {
        ArchiveOpsApart(stamp, relabelMeta, o, o');
      } else if IsRelabelOp(relabelMeta, o) && IsRelabelOp(relabelMeta, o') {
        RelabelOpsApart(relabelMeta, o, o');
      } else if IsArchiveOp(stamp, relabelMeta, o) {
        MixedOpsApart(stamp, relabelMeta, o, o');
      } else {
        MixedOpsApart(stamp, relabelMeta, o', o);
        ApartSymmetric(o'.src, o.src);
        ApartSymmetric(o'.dst, o.src);
        ApartSymmetric(o'.dst, o.dst);
      }
    }
  }

  lemma ApartSymmetric(p: Path, q: Path)
    ensures Apart(p, q) <==> Apart(q, p)
  {
  }

  /******* A plan holds each operation once *******/

  ghost predicate NoDup<T>(s: seq<T>) {
    forall i, j :: 0 <= i < j < |s| ==> s[i] != s[j]
  }

  lemma NoDupConcat<T>(a: seq<T>, b: seq<T>)
    requires NoDup(a) && NoDup(b) && forall x :: x in a ==> x !in b
    ensures NoDup(a + b)
  {
    forall i, j | 0 <= i < j < |a + b| ensures (a + b)[i] != (a + b)[j] {
      if i < |a| <= j { assert a[i] in a && b[j - |a|] in b; }
    }
  }

  // Every move of the first n targets belongs to one of them.
  ghost predicate MovesOfTargets(relabelMeta: bool, subs: seq<Path>, n: nat)
    requires n <= |LegacyTargets()|
  {
    && NoDup(subs)
    && forall sub :: sub in subs ==>
      IsSub(relabelMeta, sub) && sub != [] && exists i :: 0 <= i < n && sub[|sub| - 1] == LegacyTargets()[i]
  }

  lemma AllMovesLast(plan: seq<Entry>, e: Entry)
    ensures AllMoves(plan + [e]) == AllMoves(plan) + e.moves
    ensures AllRelabels(plan + [e]) == AllRelabels(plan) + e.relabels
  {
    assert (plan + [e])[..|plan|] == plan;
  }

  // Every one of these moves is of the target, under one of the first n metas.
  ghost predicate MovesOfMetas(relabelMeta: bool, target: string, subs: seq<Path>, n: nat)
    requires n <= |MetaDirs()|
  {
    && NoDup(subs)
    && forall sub :: sub in subs ==>
      IsSub(relabelMeta, sub) && |sub| == 2 && sub[1] == target && exists i :: 0 <= i < n && sub[0] == MetaDirs()[i]
  }

  lemma MetaMovesAppend(relabelMeta: bool, target: string, subs: seq<Path>, n: nat)
    requires 0 < n <= |MetaDirs()| && IsTarget(target) && MovesOfMetas(relabelMeta, target, subs, n - 1)
    ensures MovesOfMetas(relabelMeta, target, subs, n)
    ensures !(relabelMeta && target == RelabelTarget()) ==>
        MovesOfMetas(relabelMeta, target, subs + [[MetaDirs()[n - 1], target]], n)
  {
    hide MetaDirs, LegacyTargets, RelabelTarget, IsTarget;
    MetasDiffer();
    NoDupConcat(subs, [[MetaDirs()[n - 1], target]]);
  }

  lemma {:induction false} MetaMovesShape(t: Tree, relabelMeta: bool, target: string, n: nat)
    requires n <= |MetaDirs()| && IsTarget(target)
    ensures MovesOfMetas(relabelMeta, target, MetaMoves(t, relabelMeta, target, n), n)
  {
    if n > 0 {
      hide MovesOfMetas, MetaDirs, IsTarget, IsDir, ParquetDir, RelabelTarget;
      MetaMovesShape(t, relabelMeta, target, n - 1);
      var subs := MetaMoves(t, relabelMeta, target, n - 1);
      MetaMovesAppend(relabelMeta, target, subs, n);
      assert subs + [] == subs;
    }
  }

  lemma MetasDiffer()
    ensures forall i, j :: 0 <= i < j < |MetaDirs()| ==> MetaDirs()[i] != MetaDirs()[j]
  {
    assert MetaDirs()[0][5] == 'f' && MetaDirs()[1][5] == 'o';
  }

  lemma TargetsDiffer(i: nat, j: nat)
    requires i < |LegacyTargets()| && j < |LegacyTargets()| && i != j
    ensures LegacyTargets()[i] != LegacyTargets()[j]
  {
    assert LegacyTargets()[0][0] == 'B' && LegacyTargets()[1][0] == 'E' && LegacyTargets()[2][0] == 'S'
        && LegacyTargets()[3][0] == 'X';
  }

  ghost predicate MovesOfTarget(relabelMeta: bool, subs: seq<Path>, k: nat)
    requires k < |LegacyTargets()|
  {
    && NoDup(subs)
    && forall sub :: sub in subs ==> IsSub(relabelMeta, sub) && sub != [] && sub[|sub| - 1] == LegacyTargets()[k]
  }

  lemma MovesAppend(relabelMeta: bool, subs: seq<Path>, more: seq<Path>, n: nat)
    requires 0 < n <= |LegacyTargets()|
    requires MovesOfTargets(relabelMeta, subs, n - 1) && MovesOfTarget(relabelMeta, more, n - 1)
    ensures MovesOfTargets(relabelMeta, subs + more, n)
  {
    hide LegacyTargets, IsSub;
    forall sub | sub in subs ensures sub !in more {
      var i :| 0 <= i < n - 1 && sub[|sub| - 1] == LegacyTargets()[i];
      TargetsDiffer(i, n - 1);
    }
    NoDupConcat(subs, more);
  }

  lemma {:induction false} TargetEntriesShape(t: Tree, dated: set<string>, relabelMeta: bool, n: nat)
    requires n <= |LegacyTargets()|
    ensures MovesOfTargets(relabelMeta, AllMoves(TargetEntries(t, dated, relabelMeta, n)), n)
    ensures AllRelabels(TargetEntries(t, dated, relabelMeta, n)) == []
  {
    if n > 0 {
      hide LegacyTargets, MovesOfTargets, MovesOfTarget, TargetEntry, AllMoves, AllRelabels, IsDir, Partition;
      TargetEntriesShape(t, dated, relabelMeta, n - 1);
      var plan, target := TargetEntries(t, dated, relabelMeta, n - 1), LegacyTargets()[n - 1];
      NothingAppended(relabelMeta, AllMoves(plan), n);
      if IsDir(t, Partition(target)) {
        var e := TargetEntry(t, dated, relabelMeta, target);
        AllMovesLast(plan, e);
        EntryShape(t, dated, relabelMeta, n - 1);
        MovesAppend(relabelMeta, AllMoves(plan), e.moves, n);
      } else {
        assert plan + [] == plan;
      }
    }
  }

  lemma NothingAppended(relabelMeta: bool, subs: seq<Path>, n: nat)
    requires 0 < n <= |LegacyTargets()| && MovesOfTargets(relabelMeta, subs, n - 1)
    ensures MovesOfTargets(relabelMeta, subs, n)
  {
  }

  lemma EntryShape(t: Tree, dated: set<string>, relabelMeta: bool, k: nat)
    requires k < |LegacyTargets()|
    ensures MovesOfTarget(relabelMeta, TargetEntry(t, dated, relabelMeta, LegacyTargets()[k]).moves, k)
    ensures TargetEntry(t, dated, relabelMeta, LegacyTargets()[k]).relabels == []
  {
    hide Replacement, LegacyTargets, MetaDirs, MetaMoves;
    var target := LegacyTargets()[k];
    MetaMovesShape(t, relabelMeta, target, |MetaDirs()|);
    NoDupConcat([[target]], MetaMoves(t, relabelMeta, target, |MetaDirs()|));
  }

  ghost predicate RelabelsOfMetas(t: Tree, ops: seq<Relocation>, n: nat)
    requires n <= |MetaDirs()|
  {
    && NoDup(ops)
    && forall op :: op in ops ==> IsRelabelOp(true, op) && exists i :: 0 <= i < n && op == RelabelOp(MetaDirs()[i])
  }

  lemma RelabelsAppend(t: Tree, ops: seq<Relocation>, n: nat)
    requires 0 < n <= |MetaDirs()| && RelabelsOfMetas(t, ops, n - 1)
    ensures RelabelsOfMetas(t, ops, n)
    ensures RelabelsOfMetas(t, ops + [RelabelOp(MetaDirs()[n - 1])], n)
  {
    hide MetaDirs;
    var op' := RelabelOp(MetaDirs()[n - 1]);
    forall op | op in ops ensures op != op' {
      var i :| 0 <= i < n - 1 && op == RelabelOp(MetaDirs()[i]);
      MetasDiffer();
      assert op.src[2] == MetaDirs()[i] && op'.src[2] == MetaDirs()[n - 1];
    }
    NoDupConcat(ops, [op']);
  }

  lemma {:induction false} RelabelEntriesShape(t: Tree, n: nat)
    requires n <= |MetaDirs()|
    ensures AllMoves(RelabelEntries(t, n)) == []
    ensures RelabelsOfMetas(t, AllRelabels(RelabelEntries(t, n)), n)
  {
    if n > 0 {
      hide MetaDirs, RelabelsOfMetas, AllMoves, AllRelabels, IsDir, RelabelOp;
      RelabelEntriesShape(t, n - 1);
      var plan, e := RelabelEntries(t, n - 1), RelabelEntry(MetaDirs()[n - 1]);
      AllMovesLast(plan, e);
      RelabelsAppend(t, AllRelabels(plan), n);
      assert plan + [] == plan;
    }
  }

  lemma {:induction false} RelabelEntriesPass(t: Tree, n: nat)
    requires n <= |MetaDirs()|
    ensures forall e :: e in RelabelEntries(t, n) ==> e.moves == [] && forall op :: op in e.relabels ==>
        Reason(t, op).None?
  {
    if n > 0 {
      hide MetaDirs, RelabelOp, IsDir;
      RelabelEntriesPass(t, n - 1);
    }
  }

  lemma {:induction false} AllMovesConcat(a: seq<Entry>, b: seq<Entry>)
    ensures AllMoves(a + b) == AllMoves(a) + AllMoves(b)
    ensures AllRelabels(a + b) == AllRelabels(a) + AllRelabels(b)
  {
    if b == [] {
      assert a + b == a;
    } else {
      var before, e := b[..|b| - 1], b[|b| - 1];
      assert b == before + [e] && a + b == a + before + [e];
      hide AllMoves, AllRelabels;
      AllMovesConcat(a, before);
      AllMovesLast(before, e);
      AllMovesLast(a + before, e);
    }
  }

  lemma PlanShape(t: Tree, dated: set<string>, relabelMeta: bool)
    ensures var plan := Plan(t, dated, relabelMeta);
            && MovesOfTargets(relabelMeta, AllMoves(plan), |LegacyTargets()|)
            && NoDup(AllRelabels(plan))
            && forall op :: op in AllRelabels(plan) ==> IsRelabelOp(relabelMeta, op)
  {
    hide TargetEntries, RelabelEntries, MovesOfTargets, AllMoves, AllRelabels, LegacyTargets, MetaDirs, IsRelabelOp;
    TargetEntriesShape(t, dated, relabelMeta, |LegacyTargets()|);
    var targets := TargetEntries(t, dated, relabelMeta, |LegacyTargets()|);
    if relabelMeta {
      RelabelEntriesShape(t, |MetaDirs()|);
      var relabels := RelabelEntries(t, |MetaDirs()|);
      AllMovesConcat(targets, relabels);
      assert AllMoves(targets) + [] == AllMoves(targets) && [] + AllRelabels(relabels) == AllRelabels(relabels);
    } else {
      assert targets + [] == targets;
    }
  }
}
