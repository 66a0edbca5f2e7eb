/** The meta directories. They are archived along with their bar directory, whose replacement alone is
    checked for coverage, so their own history is replaced only as far as it was before the run. */
module ArchiveMeta {
  import opened ArchiveTree
  import opened ArchivePlan
  import opened ArchiveShape
  import opened ArchiveMigration
  import opened ArchiveSafety
  import opened ArchiveRerun

  function MetaPartition(meta: string, name: string): Path {
    ParquetDir() + [meta, name]
  }

  // Relabelling owns this meta directory.
  predicate Owned(relabelMeta: bool, target: string) {
    relabelMeta && target == RelabelTarget()
  }

  lemma SuffixedLonger(target: string, suffix: string)
    requires IsTarget(target) && suffix in SUFFIXES
    ensures |target| == 8 < |target + suffix| && (target + suffix)[..8] == target && (target + suffix)[8..] == suffix
  {
    TargetLength(target);
  }

  // No operation of a run that does not relabel into it reaches a suffixed meta partition.
  lemma SuffixedMetaClear(t: Tree, q: Request, v: Verdict, meta: string, target: string, suffix: string, a: Path)
    requires Accepted(t, q, v) && IsMeta(meta) && IsTarget(target) && suffix in SUFFIXES
        && !Owned(q.relabelMeta, target)
    requires MetaPartition(meta, target + suffix) <= a
    ensures Clear(a, Elements(Ops(v)))
    ensures a != ManifestPath(q.stamp) && !(a <= ArchiveRoot()) && !(ArchiveRoot() <= a)
  {
    SuffixedLonger(target, suffix);
    assert a[1] == "parquet" && a[2] == meta && a[3] == target + suffix;
    assert ManifestPath(q.stamp)[1] == "parquet_archive" == ArchiveRoot()[1];
    forall o | o in Ops(v) ensures !(o.src <= a) && !(o.dst <= a) {
      MetaLonger(meta);
      if o in v.relabels {
        assert |o.src| == 4 == |o.dst| && o.src[3] == RelabelTarget() && o.dst[3] == RelabelName();
        assert RelabelName()[..8] == RelabelTarget();
      } else {
        ArchiveOpShort(q, v, o);
        hide IsTarget, IsMeta, IsArchiveOp, IsRelabelOp;
      }
    }
  }

  lemma ArchiveOpShort(q: Request, v: Verdict, o: Relocation)
    requires IsArchiveOp(q.stamp, q.relabelMeta, o)
    ensures |o.dst| >= 2 && o.dst[1] == "parquet_archive"
    ensures |o.src| == 3 || |o.src| == 4
    ensures |o.src[|o.src| - 1]| == 8
  {
    var sub := o.src[2..];
    assert sub[|sub| - 1] == o.src[|o.src| - 1];
    TargetLength(sub[|sub| - 1]);
  }

  lemma SameCoverage(t: Tree, s: Tree, dir: Path)
    requires forall p :: dir <= p ==> (p in s <==> p in t) && (p in t ==> s[p] == t[p])
    ensures CoveredMonths(s, dir) == CoveredMonths(t, dir)
  {
    CoverageMonotone(t, s, dir);
    CoverageMonotone(s, t, dir);
  }

  /** Wherever the run dies, a suffixed meta partition holds exactly the months it held before. So an
      archived meta directory has its months in one exactly when it had them there before the run. */
  lemma MetaCoverage(t: Tree, q: Request, k: nat, meta: string, target: string, suffix: string)
    requires Cleared(t, q) && k <= |Program(Checked(t, q), q.stamp)|
    requires IsMeta(meta) && IsTarget(target) && suffix in SUFFIXES && !Owned(q.relabelMeta, target)
    ensures var months, kept := CoveredMonths(t, MetaPartition(meta, target)), MetaPartition(meta, target + suffix);
            months <= CoveredMonths(Stopped(t, q, k), kept) <==> months <= CoveredMonths(t, kept)
  {
    var v, dir := Checked(t, q), MetaPartition(meta, target + suffix);
    ClearedOrderly(t, q);
    assert Rooted(t);
    hide Cleared, Checked, Accepted, Movable, Orderly, Rooted, Program, MetaPartition, CoveredMonths, Run, Clear, Ops;
    forall p | dir <= p ensures (p in Stopped(t, q, k) <==> p in t) && (p in t ==> Stopped(t, q, k)[p] == t[p]) {
      SuffixedMetaClear(t, q, v, meta, target, suffix, p);
      AsideAtCrash(t, q, v, k, p);
    }
    SameCoverage(t, Stopped(t, q, k), dir);
  }

  /******* Which meta directories are archived *******/

  lemma {:induction false} MetaMoveListed(t: Tree, relabelMeta: bool, target: string, n: nat, k: nat)
    requires k < n <= |MetaDirs()| && !Owned(relabelMeta, target) && IsDir(t, ParquetDir() + [MetaDirs()[k], target])
    ensures [MetaDirs()[k], target] in MetaMoves(t, relabelMeta, target, n)
  {
    hide MetaDirs, IsDir, ParquetDir, RelabelTarget;
    if k < n - 1 {
      MetaMoveListed(t, relabelMeta, target, n - 1, k);
    }
  }

  lemma {:induction false} EntriesAre(t: Tree, dated: set<string>, relabelMeta: bool, n: nat, e: Entry)
    requires n <= |LegacyTargets()| && e in TargetEntries(t, dated, relabelMeta, n)
    ensures exists target ::
      IsTarget(target) && IsDir(t, Partition(target)) && e == TargetEntry(t, dated, relabelMeta, target)
  {
    hide LegacyTargets, IsDir, Partition, TargetEntry;
    assert IsTarget(LegacyTargets()[n - 1]);
    if !(IsDir(t, Partition(LegacyTargets()[n - 1]))
         && e == TargetEntry(t, dated, relabelMeta, LegacyTargets()[n - 1])) {
      EntriesAre(t, dated, relabelMeta, n - 1, e);
    }
  }

  lemma {:induction false} MoveOfPlan(plan: seq<Entry>, e: Entry, sub: Path)
    requires e in plan && sub in e.moves
    ensures sub in AllMoves(plan)
  {
    var before, last := plan[..|plan| - 1], plan[|plan| - 1];
    assert before + [last] == plan;
    AllMovesLast(before, last);
    if e != last {
      MoveOfPlan(before, e, sub);
    }
  }

  /** A cleared run archives every meta directory of a bar directory it archives, but for those that
      relabelling owns, without any further condition. */
  lemma MetaArchived(t: Tree, q: Request, meta: string, target: string)
    requires Cleared(t, q) && IsMeta(meta) && IsTarget(target) && !Owned(q.relabelMeta, target)
    requires IsDir(t, Partition(target)) && IsDir(t, MetaPartition(meta, target))
    ensures ArchiveOp(q.stamp, [meta, target]) in Checked(t, q).moves
    ensures Completes(t, Program(Checked(t, q), q.stamp)) ==>
              MetaPartition(meta, target) !in Run(t, Program(Checked(t, q), q.stamp))
  {
    var v, plan, op := Checked(t, q), Plan(t, q.dated, q.relabelMeta), ArchiveOp(q.stamp, [meta, target]);
    var k :| 0 <= k < |MetaDirs()| && MetaDirs()[k] == meta;
    assert op.src == MetaPartition(meta, target);
    assert Rooted(t);
    MetaMoveListed(t, q.relabelMeta, target, |MetaDirs()|, k);
    ClearedOrderly(t, q);
    hide Checked, AllMoves, Archived, Plan, Rooted, Replacement, MetaMoves, IsDir, Partition, ArchiveOp, MetaPartition;
    hide Accepted, Movable, Orderly, Completes, Run, Program, Ops;
    TargetInPlan(t, q, target);
    MoveOfPlan(plan, TargetEntry(t, q.dated, q.relabelMeta, target), [meta, target]);
    VerdictOfPlan(t, q, plan);
    ArchivedMember(q.stamp, AllMoves(plan), [meta, target]);
    if Completes(t, Program(v, q.stamp)) {
      assert op in Ops(v) by { MoveIsOp(v, op); }
      SourcesGone(t, q, v, op);
    }
  }

  lemma MoveIsOp(v: Verdict, op: Relocation)
    requires op in v.moves
    ensures op in Ops(v)
  {
  }

  /******* The relabelled meta directories *******/

  lemma ForwardBack(p: Path, r: Path, o: Relocation)
    requires o.src <= p && !(o.dst <= r) && Forward(r, o) == Forward(p, o)
    ensures r == p
  {
    assert o.dst <= Forward(p, o);
    assert Forward(p, o)[|o.dst|..] == p[|o.src|..] && Forward(r, o)[|o.dst|..] == r[|o.src|..];
    assert p == o.src + p[|o.src|..] && r == o.src + r[|o.src|..];
  }

  // Below a source that has been moved, every original node is at its new place; below the
  // destination there is nothing else.
  lemma MovedBelow(base: Tree, ops: set<Relocation>, s: Tree, o: Relocation, p: Path)
    requires Movable(base, ops) && o in ops && Arranged(base, ops, s) && o.src <= p
    ensures p in base <==> Forward(p, o) in s
    ensures p in base ==> s[Forward(p, o)] == base[p]
  {
    PlaceOf(ops, ops, p, o);
    assert Free(base, o.dst);
    if Forward(p, o) in s {
      var r :| r in base && Place(ops, r) == Forward(p, o);
      hide Arranged, Movable, Place;
      PlacedBy(ops, r, o, p);
    }
  }

  lemma PlacedBy(ops: set<Relocation>, r: Path, o: Relocation, p: Path)
    requires Independent(ops) && o in ops && o.src <= p && !(o.dst <= r) && Place(ops, r) == Forward(p, o)
    ensures r == p
  {
    PlaceOf(ops, ops, r, o);
    hide Independent, Place;
    assert o.dst <= Forward(p, o);
    ForwardBack(p, r, o);
  }

  lemma MonthMoves(t: Tree, s: Tree, src: Path, dst: Path, rest: Path)
    requires |rest| == 2 && IsDir(t, src + rest[..1]) == IsDir(s, dst + rest[..1])
    ensures IsMonthFile(t, src, src + rest) <==> IsMonthFile(s, dst, dst + rest)
    ensures IsMonthFile(t, src, src + rest) ==> MonthOf(t, src, src + rest) == MonthOf(s, dst, dst + rest)
  {
    assert Parent(src + rest) == src + rest[..1] && Parent(dst + rest) == dst + rest[..1];
  }

  lemma MonthBelow(t: Tree, src: Path, p: Path) returns (rest: Path)
    requires IsMonthFile(t, src, p)
    ensures |rest| == 2 && p == src + rest && IsDir(t, src + rest[..1])
  {
    rest := p[|src|..];
    assert p == src + rest && Parent(p) == src + rest[..1];
  }

  lemma MonthCounts(t: Tree, dir: Path, p: Path)
    requires p in t && IsMonthFile(t, dir, p)
    ensures MonthOf(t, dir, p) in CoveredMonths(t, dir)
  {
  }

  // Two trees that hold the same below two directories cover the same months there.
  lemma CoverageMoves(t: Tree, s: Tree, src: Path, dst: Path)
    requires forall rest: Path :: src + rest in t ==> dst + rest in s && s[dst + rest] == t[src + rest]
    requires forall rest: Path :: dst + rest in s ==> src + rest in t
    ensures CoveredMonths(t, src) <= CoveredMonths(s, dst)
  {
    forall m | m in CoveredMonths(t, src) ensures m in CoveredMonths(s, dst) {
      var p :| p in t && IsMonthFile(t, src, p) && MonthOf(t, src, p) == m;
      var rest := MonthBelow(t, src, p);
      hide IsMonthFile, MonthOf, CoveredMonths;
      MonthMoves(t, s, src, dst, rest);
      assert dst + rest in s;
      MonthCounts(s, dst, dst + rest);
    }
  }

  lemma RelabelBelow(t: Tree, q: Request, v: Verdict, meta: string, p: Path)
    requires Accepted(t, q, v) && q.relabelMeta && IsMeta(meta) && RelabelOp(meta).src <= p
    ensures p != ManifestPath(q.stamp) && !(p <= ArchiveRoot()) && !(ArchiveRoot() <= p)
  {
    assert p[1] == "parquet" && ManifestPath(q.stamp)[1] == "parquet_archive" == ArchiveRoot()[1];
  }

  // The steps that are not moves leave what is below a relabelled directory alone.
  lemma BareBelow(t: Tree, q: Request, v: Verdict, p: Path)
    requires Accepted(t, q, v) && p != ManifestPath(q.stamp) && !(p <= ArchiveRoot()) && !(ArchiveRoot() <= p)
    ensures var base := Run(t, WithoutMoves(Program(v, q.stamp)));
            (p in base <==> p in t) && (p in t ==> base[p] == t[p])
  {
    var program := Program(v, q.stamp);
    hide Accepted, Program, Run, Written, Made, ManifestPath, ArchiveRoot;
    assert program[..|program|] == program;
    ProgramTouches(t, q, v, |program|);
    BareSteps(program);
    BareRunAdds(t, WithoutMoves(program));
    BareTouches(program);
  }

  lemma RelabelledNode(t: Tree, q: Request, v: Verdict, meta: string, rest: Path)
    requires Rooted(t) && Accepted(t, q, v) && Completes(t, Program(v, q.stamp))
    requires q.relabelMeta && IsMeta(meta) && RelabelOp(meta) in Ops(v)
    ensures var op, s := RelabelOp(meta), Run(t, Program(v, q.stamp));
            && (op.src + rest in t <==> op.dst + rest in s)
            && (op.src + rest in t ==> s[op.dst + rest] == t[op.src + rest])
  {
    var op, base := RelabelOp(meta), Run(t, WithoutMoves(Program(v, q.stamp)));
    RelabelBelow(t, q, v, meta, op.src + rest);
    hide Rooted, Accepted, Completes, Program, Run, Movable, Arranged, Ops, ManifestPath, ArchiveRoot, RelabelOp,
        IsMeta;
    BareBelow(t, q, v, op.src + rest);
    Finished(t, q, v);
    MovedBelow(base, Elements(Ops(v)), Run(t, Program(v, q.stamp)), op, op.src + rest);
    assert (op.src + rest)[|op.src|..] == rest;
  }

  /** A meta directory that a finished run relabels has exactly its months in the suffixed partition. */
  lemma RelabelKeepsMonths(t: Tree, q: Request, meta: string)
    requires Cleared(t, q) && Completes(t, Program(Checked(t, q), q.stamp)) && q.relabelMeta && IsMeta(meta)
    requires IsDir(t, RelabelOp(meta).src) && RelabelOp(meta).dst !in t
    ensures CoveredMonths(Run(t, Program(Checked(t, q), q.stamp)), RelabelOp(meta).dst) ==
        CoveredMonths(t, RelabelOp(meta).src)
  {
    var v, op := Checked(t, q), RelabelOp(meta);
    var s := Run(t, Program(v, q.stamp));
    var k :| 0 <= k < |MetaDirs()| && MetaDirs()[k] == meta;
    ClearedOrderly(t, q);
    assert Rooted(t);
    hide Cleared, Checked, Rooted, Accepted, Movable, Orderly, Completes, Program, Run, RelabelOp, CoveredMonths, Ops;
    RelabelCleared(t, q, k);
    forall rest: Path
      ensures op.src + rest in t ==> op.dst + rest in s && s[op.dst + rest] == t[op.src + rest]
      ensures op.dst + rest in s ==> op.src + rest in t
    {
      RelabelledNode(t, q, v, meta, rest);
    }
    CoverageMoves(t, s, op.src, op.dst);
    CoverageMoves(s, t, op.dst, op.src);
  }
}
