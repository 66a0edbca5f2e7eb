/** A second request on the tree of a run that died: which of the pending operations it takes up. The
    planner looks at a meta directory only on behalf of a bar directory that is there, so once the bar
    directory has been moved its metas are not planned again. */
module ArchiveResume {
  import opened ArchiveTree
  import opened ArchivePlan
  import opened ArchiveShape
  import opened ArchiveMigration
  import opened ArchiveSafety
  import opened ArchiveMeta
  import opened ArchiveRerun
  import opened ArchiveSecond
  import opened ArchiveExamples

  // The operations done when the run dies.
  function DoneBy(t: Tree, q: Request, k: nat): set<Relocation>
    requires k <= |Program(Checked(t, q), q.stamp)|
  {
    Moved(t, Program(Checked(t, q), q.stamp)[..k])
  }

  // Every operation that is pending is one of the new plan's.
  ghost predicate TakesUp(plan: seq<Entry>, v: Verdict, stamp: string, done: set<Relocation>) {
    && (forall sub :: ArchiveOp(stamp, sub) in v.moves && ArchiveOp(stamp, sub) !in done ==> sub in AllMoves(plan))
    && (forall o :: o in v.relabels && o !in done ==> o in AllRelabels(plan))
  }

  // The bar directory has gone, and the meta directory that should have gone along is still there.
  ghost predicate Stranded(v: Verdict, stamp: string, done: set<Relocation>, meta: string, target: string) {
    && ArchiveOp(stamp, [meta, target]) in v.moves && ArchiveOp(stamp, [meta, target]) !in done
    && ArchiveOp(stamp, [target]) in done
  }

  /******* Where the operations stand *******/

  lemma PendingStands(t: Tree, q: Request, k: nat, o: Relocation)
    requires Cleared(t, q) && k <= |Program(Checked(t, q), q.stamp)|
    requires o in Ops(Checked(t, q)) && o !in DoneBy(t, q, k)
    ensures IsDir(Stopped(t, q, k), o.src) && o.dst !in Stopped(t, q, k)
  {
    var v, done, s := Checked(t, q), DoneBy(t, q, k), Stopped(t, q, k);
    ClearedOrderly(t, q);
    NotManifest(t, q, v, o);
    hide Cleared, Checked, Accepted, Orderly, Rooted, Program, Run, Moved, ManifestPath, Arranged, Ops, Independent,
        Place;
    CrashLosesNothing(t, q, k, o.src);
    assert o in Elements(Ops(v)) && Independent(Elements(Ops(v)));
    PlaceOf(Elements(Ops(v)), done, o.src, o);
    var moved := MovedArranges(t, Elements(Ops(v)), Program(v, q.stamp), k);
    hide Movable;
    DestinationFree(Run(t, WithoutMoves(Program(v, q.stamp)[..k])), Elements(Ops(v)), moved, s, o);
  }

  lemma NotManifest(t: Tree, q: Request, v: Verdict, o: Relocation)
    requires Accepted(t, q, v) && o in Ops(v)
    ensures IsDir(t, o.src) && o.src != ManifestPath(q.stamp)
  {
    ManifestsClear(t, q, v, q.stamp);
  }

  /******* What a plan takes up *******/

  lemma {:induction false} MoveHasEntry(plan: seq<Entry>, sub: Path) returns (e: Entry)
    requires sub in AllMoves(plan)
    ensures e in plan && sub in e.moves
  {
    e := plan[|plan| - 1];
    if sub !in e.moves {
      e := MoveHasEntry(plan[..|plan| - 1], sub);
    }
  }

  lemma {:induction false} MetaMovesOf(t: Tree, relabelMeta: bool, target: string, n: nat)
    requires n <= |MetaDirs()|
    ensures forall sub :: sub in MetaMoves(t, relabelMeta, target, n) ==> |sub| == 2 && sub[1] == target
  {
    if n > 0 {
      hide MetaDirs, ParquetDir, RelabelTarget;
      MetaMovesOf(t, relabelMeta, target, n - 1);
    }
  }

  lemma EntryMoves(t: Tree, dated: set<string>, relabelMeta: bool, target: string, sub: Path)
    requires sub in TargetEntry(t, dated, relabelMeta, target).moves && |sub| == 2
    ensures sub[1] == target
  {
    hide Replacement, MetaMoves;
    MetaMovesOf(t, relabelMeta, target, |MetaDirs()|);
  }

  // A meta directory is planned on behalf of its bar directory only.
  lemma MetaNeedsBar(t: Tree, dated: set<string>, relabelMeta: bool, meta: string, target: string)
    requires [meta, target] in AllMoves(Plan(t, dated, relabelMeta))
    ensures IsTarget(target) && IsDir(t, Partition(target))
  {
    var n, sub := |LegacyTargets()|, [meta, target];
    hide AllMoves, TargetEntry, TargetEntries, RelabelEntries, LegacyTargets, IsDir, Partition;
    var e := MoveHasEntry(Plan(t, dated, relabelMeta), sub);
    if e in TargetEntries(t, dated, relabelMeta, n) {
      EntriesAre(t, dated, relabelMeta, n, e);
      var target' :| IsTarget(target') && IsDir(t, Partition(target'))
          && e == TargetEntry(t, dated, relabelMeta, target');
      EntryMoves(t, dated, relabelMeta, target', sub);
    } else {
      RelabelEntriesPass(t, |MetaDirs()|);
    }
  }

  lemma MetaPlanned(t: Tree, q: Request, meta: string, target: string)
    requires IsMeta(meta) && IsTarget(target) && !Owned(q.relabelMeta, target)
    requires IsDir(t, Partition(target)) && IsDir(t, ParquetDir() + [meta, target])
    ensures [meta, target] in AllMoves(Plan(t, q.dated, q.relabelMeta))
  {
    var k :| 0 <= k < |MetaDirs()| && MetaDirs()[k] == meta;
    MetaMoveListed(t, q.relabelMeta, target, |MetaDirs()|, k);
    assert [meta, target] in TargetEntry(t, q.dated, q.relabelMeta, target).moves;
    hide AllMoves, Plan, TargetEntry, MetaDirs, LegacyTargets, IsDir, Partition, ParquetDir;
    TargetInPlan(t, q, target);
    MoveOfPlan(Plan(t, q.dated, q.relabelMeta), TargetEntry(t, q.dated, q.relabelMeta, target), [meta, target]);
  }

  // A run that archives a meta directory archives the bar directory too.
  lemma BarArchived(t: Tree, q: Request, meta: string, target: string)
    requires Cleared(t, q) && ArchiveOp(q.stamp, [meta, target]) in Checked(t, q).moves
    ensures IsTarget(target) && ArchiveOp(q.stamp, [target]) in Checked(t, q).moves
  {
    var v, plan, op := Checked(t, q), Plan(t, q.dated, q.relabelMeta), ArchiveOp(q.stamp, [meta, target]);
    hide Checked, Plan, AllMoves, Rooted, ArchiveOp, Replacement, Partition, IsDir, Passes;
    VerdictOfPlan(t, q, plan);
    var i :| 0 <= i < |v.moves| && v.moves[i] == op;
    ArchiveOpInjective(q.stamp, AllMoves(plan)[i], [meta, target]);
    assert AllMoves(plan)[i] in AllMoves(plan);
    MetaNeedsBar(t, q.dated, q.relabelMeta, meta, target);
    TargetCleared(t, q, target);
  }

  /******* The second request *******/

  lemma MoveIsSub(t: Tree, q: Request, v: Verdict, sub: Path)
    requires Accepted(t, q, v) && ArchiveOp(q.stamp, sub) in v.moves
    ensures IsSub(q.relabelMeta, sub) && ArchiveOp(q.stamp, sub) in Ops(v)
    ensures ArchiveOp(q.stamp, sub).src == ParquetDir() + sub
  {
    assert (ParquetDir() + sub)[2..] == sub;
    hide IsSub;
    assert IsArchiveOp(q.stamp, q.relabelMeta, ArchiveOp(q.stamp, sub));
  }

  // A bar directory stands exactly as long as its own move is pending.
  lemma BarStands(t: Tree, q: Request, k: nat, target: string)
    requires Cleared(t, q) && k <= |Program(Checked(t, q), q.stamp)|
    requires ArchiveOp(q.stamp, [target]) in Checked(t, q).moves
    ensures IsDir(Stopped(t, q, k), Partition(target)) <==> ArchiveOp(q.stamp, [target]) !in DoneBy(t, q, k)
  {
    var v, o := Checked(t, q), ArchiveOp(q.stamp, [target]);
    ClearedOrderly(t, q);
    assert Rooted(t) && o.src == Partition(target);
    MoveIsOp(v, o);
    hide Cleared, Checked, Accepted, Movable, Orderly, Rooted, Program, Run, Moved, ArchiveOp, Partition, Ops;
    if o in DoneBy(t, q, k) {
      DoneSourceGone(t, q, v, k, o);
    } else {
      PendingStands(t, q, k, o);
    }
  }

  /** A pending move of a bar directory is planned again, and one of a meta directory exactly when its
      bar directory has not been moved yet. */
  lemma PendingPlanned(t: Tree, q: Request, k: nat, q': Request, sub: Path)
    requires Cleared(t, q) && k <= |Program(Checked(t, q), q.stamp)| && q'.relabelMeta == q.relabelMeta
    requires ArchiveOp(q.stamp, sub) in Checked(t, q).moves && ArchiveOp(q.stamp, sub) !in DoneBy(t, q, k)
    ensures |sub| == 1 || |sub| == 2
    ensures sub in AllMoves(Plan(Stopped(t, q, k), q'.dated, q'.relabelMeta)) <==>
            |sub| == 1 || ArchiveOp(q.stamp, [sub[1]]) !in DoneBy(t, q, k)
  {
    hide *;
    ClearedOrderly(t, q);
    MoveIsSub(t, q, Checked(t, q), sub);
    SubKinds(q.relabelMeta, sub);
    PendingStands(t, q, k, ArchiveOp(q.stamp, sub));
    if |sub| == 1 {
      TargetInPlan(Stopped(t, q, k), q', sub[0]);
    } else {
      MetaPending(t, q, k, q', sub[0], sub[1]);
    }
  }

  lemma SubKinds(relabelMeta: bool, sub: Path)
    requires IsSub(relabelMeta, sub)
    ensures |sub| == 1 || |sub| == 2
    ensures |sub| == 1 ==> sub == [sub[0]] && IsTarget(sub[0]) && Partition(sub[0]) == ParquetDir() + sub
    ensures |sub| == 2 ==> sub == [sub[0], sub[1]] && IsMeta(sub[0]) && IsTarget(sub[1]) && !Owned(relabelMeta, sub[1])
  {
    hide IsTarget, IsMeta;
  }

  lemma MetaPending(t: Tree, q: Request, k: nat, q': Request, meta: string, target: string)
    requires Cleared(t, q) && k <= |Program(Checked(t, q), q.stamp)| && q'.relabelMeta == q.relabelMeta
    requires IsMeta(meta) && IsTarget(target) && !Owned(q.relabelMeta, target)
    requires ArchiveOp(q.stamp, [meta, target]) in Checked(t, q).moves
    requires IsDir(Stopped(t, q, k), ParquetDir() + [meta, target])
    ensures [meta, target] in AllMoves(Plan(Stopped(t, q, k), q'.dated, q'.relabelMeta)) <==>
            ArchiveOp(q.stamp, [target]) !in DoneBy(t, q, k)
  {
    var s := Stopped(t, q, k);
    hide *;
    BarArchived(t, q, meta, target);
    BarStands(t, q, k, target);
    if ArchiveOp(q.stamp, [target]) !in DoneBy(t, q, k) {
      MetaPlanned(s, q', meta, target);
    } else if [meta, target] in AllMoves(Plan(s, q'.dated, q'.relabelMeta)) {
      MetaNeedsBar(s, q'.dated, q'.relabelMeta, meta, target);
    }
  }

  lemma RelabelIs(t: Tree, q: Request, v: Verdict, o: Relocation) returns (j: nat)
    requires Accepted(t, q, v) && o in v.relabels
    ensures q.relabelMeta && j < |MetaDirs()| && o == RelabelOp(MetaDirs()[j]) && o in Ops(v)
  {
    hide RelabelOp, IsArchiveOp;
    assert IsRelabelOp(q.relabelMeta, o);
    j :| 0 <= j < |MetaDirs()| && MetaDirs()[j] == o.src[2];
  }

  // A pending relabelling is always planned again.
  lemma RelabelPending(t: Tree, q: Request, k: nat, q': Request, o: Relocation)
    requires Cleared(t, q) && k <= |Program(Checked(t, q), q.stamp)| && q'.relabelMeta == q.relabelMeta
    requires o in Checked(t, q).relabels && o !in DoneBy(t, q, k)
    ensures o in AllRelabels(Plan(Stopped(t, q, k), q'.dated, q'.relabelMeta))
  {
    var v, s, n := Checked(t, q), Stopped(t, q, k), |LegacyTargets()|;
    ClearedOrderly(t, q);
    var j := RelabelIs(t, q, v, o);
    hide Cleared, Checked, Accepted, Movable, Orderly, Rooted, Program, DoneBy, Stopped, Ops, AllRelabels, MetaDirs,
        LegacyTargets, IsDir, RelabelOp, TargetEntries, RelabelEntries;
    PendingStands(t, q, k, o);
    RelabelPlanned(s, |MetaDirs()|, j);
    AllMovesConcat(TargetEntries(s, q'.dated, q'.relabelMeta, n), RelabelEntries(s, |MetaDirs()|));
  }

  /** Wherever the first run died, a second request with the same relabel choice takes up every pending
      operation exactly when no meta directory is stranded: none is pending whose bar directory has gone. */
  lemma ResumeTakesUp(t: Tree, q: Request, k: nat, q': Request)
    requires Cleared(t, q) && k <= |Program(Checked(t, q), q.stamp)| && q'.relabelMeta == q.relabelMeta
    ensures var v, done := Checked(t, q), DoneBy(t, q, k);
            TakesUp(Plan(Stopped(t, q, k), q'.dated, q'.relabelMeta), v, q.stamp, done) <==>
            forall meta, target :: !Stranded(v, q.stamp, done, meta, target)
  {
    var v, done, plan := Checked(t, q), DoneBy(t, q, k), Plan(Stopped(t, q, k), q'.dated, q'.relabelMeta);
    hide Cleared, Checked, Program, DoneBy, Stopped, Plan, AllMoves, AllRelabels, ArchiveOp;
    forall sub | ArchiveOp(q.stamp, sub) in v.moves && ArchiveOp(q.stamp, sub) !in done
      ensures sub !in AllMoves(plan) <==> |sub| == 2 && Stranded(v, q.stamp, done, sub[0], sub[1])
    {
      PendingPlanned(t, q, k, q', sub);
      assert |sub| == 2 ==> sub == [sub[0], sub[1]];
    }
    forall o | o in v.relabels && o !in done ensures o in AllRelabels(plan) {
      RelabelPending(t, q, k, q', o);
    }
    if meta, target :| Stranded(v, q.stamp, done, meta, target) {
      assert [meta, target][0] == meta && [meta, target][1] == target;
      assert ArchiveOp(q.stamp, [meta, target]) in v.moves;
    }
  }

  /******* A second request with any relabel choice *******/

  // The directories that a plan's operations take up.
  ghost predicate TakenUp(plan: seq<Entry>, src: Path) {
    || (exists sub :: sub in AllMoves(plan) && src == ParquetDir() + sub)
    || (exists op :: op in AllRelabels(plan) && src == op.src)
  }

  lemma {:induction false} RelabelHasEntry(plan: seq<Entry>, op: Relocation) returns (e: Entry)
    requires op in AllRelabels(plan)
    ensures e in plan && op in e.relabels
  {
    e := plan[|plan| - 1];
    if op !in e.relabels {
      e := RelabelHasEntry(plan[..|plan| - 1], op);
    }
  }

  // A relabelling is planned exactly when it is asked for and can be done.
  lemma RelabelIsPlanned(t: Tree, q: Request, meta: string)
    requires IsMeta(meta) && IsDir(t, RelabelOp(meta).src)
    ensures RelabelOp(meta) in AllRelabels(Plan(t, q.dated, q.relabelMeta)) <==>
            q.relabelMeta && RelabelOp(meta).dst !in t
  {
    var n, op, plan := |LegacyTargets()|, RelabelOp(meta), Plan(t, q.dated, q.relabelMeta);
    var j :| 0 <= j < |MetaDirs()| && MetaDirs()[j] == meta;
    hide AllRelabels, MetaDirs, LegacyTargets, IsDir, RelabelOp, TargetEntries, RelabelEntries;
    if q.relabelMeta && op.dst !in t {
      RelabelPlanned(t, |MetaDirs()|, j);
      AllMovesConcat(TargetEntries(t, q.dated, q.relabelMeta, n), RelabelEntries(t, |MetaDirs()|));
    }
    if op in AllRelabels(plan) {
      RelabelOnlyFree(t, q, op);
    }
  }

  lemma RelabelOnlyFree(t: Tree, q: Request, op: Relocation)
    requires op in AllRelabels(Plan(t, q.dated, q.relabelMeta))
    ensures q.relabelMeta && op.dst !in t
  {
    var plan := Plan(t, q.dated, q.relabelMeta);
    PlanShape(t, q.dated, q.relabelMeta);
    assert IsRelabelOp(q.relabelMeta, op);
    hide AllRelabels, IsDir, Plan, RelabelOp, IsArchiveOp;
    var e := RelabelHasEntry(plan, op);
    PlannedExists(t, q, e);
  }

  lemma SourceOfMeta(sub: Path, meta: string, target: string)
    ensures ParquetDir() + sub == ParquetDir() + [meta, target] <==> sub == [meta, target]
  {
    assert (ParquetDir() + sub)[2..] == sub && (ParquetDir() + [meta, target])[2..] == [meta, target];
  }

  lemma RelabelSource(relabelMeta: bool, op: Relocation, meta: string, target: string)
    requires IsRelabelOp(relabelMeta, op)
    ensures op.src == ParquetDir() + [meta, target] <==> op == RelabelOp(meta) && target == RelabelTarget()
  {
    var p := ParquetDir() + [meta, target];
    assert |p| == 4 && p[2] == meta && p[3] == target && op.src[3] == RelabelTarget();
    assert op.src == ParquetDir() + [op.src[2], RelabelTarget()];
  }

  lemma MetaNotOwned(t: Tree, q: Request, meta: string, target: string)
    requires [meta, target] in AllMoves(Plan(t, q.dated, q.relabelMeta))
    ensures !Owned(q.relabelMeta, target)
  {
    PlanShape(t, q.dated, q.relabelMeta);
    hide AllMoves, Plan, IsMeta, IsTarget;
    assert IsSub(q.relabelMeta, [meta, target]) && |[meta, target]| == 2;
  }

  /** Of a meta directory that is there: a plan takes it up, if relabelling owns it, exactly when its
      suffixed name is free, and otherwise exactly when its bar directory is there. */
  lemma MetaTakenUp(t: Tree, q: Request, meta: string, target: string)
    requires IsMeta(meta) && IsTarget(target) && IsDir(t, ParquetDir() + [meta, target])
    ensures TakenUp(Plan(t, q.dated, q.relabelMeta), ParquetDir() + [meta, target]) <==>
            if Owned(q.relabelMeta, target) then RelabelOp(meta).dst !in t else IsDir(t, Partition(target))
  {
    var plan, sub := Plan(t, q.dated, q.relabelMeta), [meta, target];
    var src := ParquetDir() + sub;
    PlanShape(t, q.dated, q.relabelMeta);
    assert Owned(q.relabelMeta, target) ==> RelabelOp(meta).src == src;
    hide Plan, AllMoves, AllRelabels, IsDir, RelabelOp, IsMeta, IsTarget, MovesOfTargets, NoDup, ParquetDir, Partition,
        IsRelabelOp;
    if Owned(q.relabelMeta, target) {
      RelabelIsPlanned(t, q, meta);
    } else if IsDir(t, Partition(target)) {
      MetaPlanned(t, q, meta, target);
    }
    if TakenUp(plan, src) {
      if other :| other in AllMoves(plan) && src == ParquetDir() + other {
        SourceOfMeta(other, meta, target);
        MetaNeedsBar(t, q.dated, q.relabelMeta, meta, target);
        MetaNotOwned(t, q, meta, target);
      } else {
        var op :| op in AllRelabels(plan) && src == op.src;
        RelabelSource(q.relabelMeta, op, meta, target);
        RelabelOnlyFree(t, q, op);
      }
    }
  }

  lemma PendingKinds(t: Tree, q: Request, v: Verdict, o: Relocation)
    requires Accepted(t, q, v) && o in Ops(v)
    ensures |o.src| == 3 ==> IsTarget(o.src[2]) && o.src == Partition(o.src[2])
    ensures |o.src| == 3 || (|o.src| == 4 && IsMeta(o.src[2]) && IsTarget(o.src[3])
        && o.src == ParquetDir() + [o.src[2], o.src[3]])
  {
    hide IsMeta;
    if o in v.relabels {
      assert IsRelabelOp(q.relabelMeta, o);
      assert IsTarget(RelabelTarget()) by { assert LegacyTargets()[0] == RelabelTarget(); }
    } else {
      assert o in v.moves && IsArchiveOp(q.stamp, q.relabelMeta, o);
      var sub := o.src[2..];
      hide IsTarget;
      assert o.src == ParquetDir() + sub && o.src[2] == sub[0] && (|sub| == 2 ==> o.src[3] == sub[1]);
    }
  }

  /** Whatever the second request's relabel choice: of the pending operations it takes up every bar
      directory; a meta directory that its relabelling owns exactly when the suffixed name is free; and
      any other meta directory exactly when its bar directory is still there. */
  lemma PendingTakenUp(t: Tree, q: Request, k: nat, q': Request, o: Relocation)
    requires Cleared(t, q) && k <= |Program(Checked(t, q), q.stamp)|
    requires o in Ops(Checked(t, q)) && o !in DoneBy(t, q, k)
    ensures |o.src| == 3 || |o.src| == 4
    ensures var s := Stopped(t, q, k);
            TakenUp(Plan(s, q'.dated, q'.relabelMeta), o.src) <==>
            || |o.src| == 3
            || if Owned(q'.relabelMeta, o.src[3]) then RelabelOp(o.src[2]).dst !in s else IsDir(s, Partition(o.src[3]))
  {
    var s := Stopped(t, q, k);
    ClearedOrderly(t, q);
    hide *;
    PendingKinds(t, q, Checked(t, q), o);
    PendingStands(t, q, k, o);
    if |o.src| == 3 {
      TargetInPlan(s, q', o.src[2]);
      BarTakenUp(Plan(s, q'.dated, q'.relabelMeta), o.src[2]);
    } else {
      MetaTakenUp(s, q', o.src[2], o.src[3]);
    }
  }

  lemma BarTakenUp(plan: seq<Entry>, target: string)
    requires [target] in AllMoves(plan)
    ensures TakenUp(plan, Partition(target))
  {
    hide AllMoves, ParquetDir;
  }

  /******* Every run passes through such a point *******/

  // In a list of moves, that of a bar directory comes before those of its metas.
  ghost predicate BarsFirst(subs: seq<Path>) {
    forall j :: 0 <= j < |subs| && |subs[j]| == 2 ==> exists i :: 0 <= i < j && subs[i] == [subs[j][1]]
  }

  lemma BarsFirstConcat(a: seq<Path>, b: seq<Path>)
    requires BarsFirst(a) && BarsFirst(b)
    ensures BarsFirst(a + b)
  {
    forall j | 0 <= j < |a + b| && |(a + b)[j]| == 2 ensures exists i :: 0 <= i < j && (a + b)[i] == [(a + b)[j][1]] {
      if j < |a| {
        var i :| 0 <= i < j && a[i] == [a[j][1]];
        assert (a + b)[i] == a[i];
      } else {
        var i :| 0 <= i < j - |a| && b[i] == [b[j - |a|][1]];
        assert (a + b)[i + |a|] == b[i];
      }
    }
  }

  lemma EntryBarsFirst(t: Tree, dated: set<string>, relabelMeta: bool, target: string)
    ensures BarsFirst(TargetEntry(t, dated, relabelMeta, target).moves)
  {
    hide Replacement, MetaMoves;
    var metas := MetaMoves(t, relabelMeta, target, |MetaDirs()|);
    MetaMovesOf(t, relabelMeta, target, |MetaDirs()|);
    var subs := [[target]] + metas;
    forall j | 0 <= j < |subs| && |subs[j]| == 2 ensures exists i :: 0 <= i < j && subs[i] == [subs[j][1]] {
      assert subs[j] == metas[j - 1] && metas[j - 1] in metas && subs[0] == [target];
    }
  }

  lemma {:induction false} PlanBarsFirst(plan: seq<Entry>)
    requires forall e :: e in plan ==> BarsFirst(e.moves)
    ensures BarsFirst(AllMoves(plan))
  {
    if plan != [] {
      var before, e := plan[..|plan| - 1], plan[|plan| - 1];
      assert plan == before + [e];
      hide BarsFirst, AllMoves;
      PlanBarsFirst(before);
      AllMovesLast(before, e);
      BarsFirstConcat(AllMoves(before), e.moves);
    }
  }

  lemma BarMovesFirst(t: Tree, dated: set<string>, relabelMeta: bool)
    ensures BarsFirst(AllMoves(Plan(t, dated, relabelMeta)))
  {
    var plan, n := Plan(t, dated, relabelMeta), |LegacyTargets()|;
    hide TargetEntry, TargetEntries, RelabelEntries, LegacyTargets, AllMoves, IsDir, Partition;
    forall e | e in plan ensures BarsFirst(e.moves) {
      if e in TargetEntries(t, dated, relabelMeta, n) {
        EntriesAre(t, dated, relabelMeta, n, e);
        var target :| IsTarget(target) && IsDir(t, Partition(target))
            && e == TargetEntry(t, dated, relabelMeta, target);
        EntryBarsFirst(t, dated, relabelMeta, target);
      } else {
        RelabelEntriesPass(t, |MetaDirs()|);
      }
    }
    PlanBarsFirst(plan);
  }

  lemma {:induction false} MoveStepsLength(moves: seq<Relocation>, n: nat)
    requires n <= |moves|
    ensures |MoveSteps(moves, n)| == 2 * n
  {
    if n > 0 {
      MoveStepsLength(moves, n - 1);
    }
  }

  // The program up to its n-th move.
  lemma Through(v: Verdict, stamp: string, n: nat)
    requires n <= |v.moves|
    ensures 2 + 2 * n <= |Program(v, stamp)|
    ensures Program(v, stamp)[..2 + 2 * n] == Opening(v, stamp) + MoveSteps(v.moves, n)
  {
    MoveStepsLength(v.moves, n);
    MoveStepsPrefix(v.moves, n, |v.moves|);
    hide MoveSteps;
  }

  // Once the first n moves are through, exactly those are done.
  lemma DoneThrough(t: Tree, q: Request, v: Verdict, n: nat)
    requires v == Checked(t, q) && n <= |v.moves| && 2 + 2 * n <= |Program(v, q.stamp)|
    requires Completes(t, Program(v, q.stamp)[..2 + 2 * n])
    ensures DoneBy(t, q, 2 + 2 * n) == Elements(v.moves[..n])
  {
    Through(v, q.stamp, n);
    hide Checked, Program, Opening, MoveSteps, Completes, Moved;
    AllMoved(t, Program(v, q.stamp)[..2 + 2 * n]);
    MovedSoFar(v, q.stamp, n);
    assert Ops(v)[..n] == v.moves[..n];
  }

  lemma Distinct(ops: seq<Relocation>, more: seq<Relocation>, i: nat, j: nat)
    requires NoDup(ops + more) && i < j < |ops|
    ensures ops[i] in Elements(ops[..i + 1]) && ops[j] !in Elements(ops[..i + 1])
  {
    assert ops[..i + 1][i] == ops[i];
    assert forall m :: 0 <= m <= i ==> (ops + more)[m] == ops[m] && (ops + more)[j] == ops[j];
  }

  // Where the two moves stand in the list.
  lemma BarBeforeMeta(t: Tree, q: Request, meta: string, target: string) returns (i: nat, j: nat)
    requires Cleared(t, q) && ArchiveOp(q.stamp, [meta, target]) in Checked(t, q).moves
    ensures i < j < |Checked(t, q).moves|
    ensures Checked(t, q).moves[i] == ArchiveOp(q.stamp, [target])
    ensures Checked(t, q).moves[j] == ArchiveOp(q.stamp, [meta, target])
  {
    var v, plan := Checked(t, q), Plan(t, q.dated, q.relabelMeta);
    var subs := AllMoves(plan);
    hide Checked, Plan, AllMoves, Rooted, ArchiveOp, Passes;
    VerdictOfPlan(t, q, plan);
    BarMovesFirst(t, q.dated, q.relabelMeta);
    j :| 0 <= j < |v.moves| && v.moves[j] == ArchiveOp(q.stamp, [meta, target]);
    ArchiveOpInjective(q.stamp, subs[j], [meta, target]);
    i :| 0 <= i < j && subs[i] == [subs[j][1]];
  }

  /** A run that archives a meta directory comes to a point at which dying strands it: just after the
      move of its bar directory. */
  lemma SomewhereStranded(t: Tree, q: Request, meta: string, target: string) returns (i: nat)
    requires Cleared(t, q) && ArchiveOp(q.stamp, [meta, target]) in Checked(t, q).moves
    ensures var v := Checked(t, q);
            && i < |v.moves| && v.moves[i] == ArchiveOp(q.stamp, [target])
            && 4 + 2 * i <= |Program(v, q.stamp)|
            && (Completes(t, Program(v, q.stamp)[..4 + 2 * i]) ==>
                  Stranded(v, q.stamp, DoneBy(t, q, 4 + 2 * i), meta, target))
  {
    hide *;
    var v := Checked(t, q);
    var j;
    ClearedOrderly(t, q);
    i, j := BarBeforeMeta(t, q, meta, target);
    Through(v, q.stamp, i + 1);
    if Completes(t, Program(v, q.stamp)[..4 + 2 * i]) {
      DoneThrough(t, q, v, i + 1);
      StrandedAfter(t, q, v, i, j, meta, target);
    }
  }

  lemma StrandedAfter(t: Tree, q: Request, v: Verdict, i: nat, j: nat, meta: string, target: string)
    requires Accepted(t, q, v) && i < j < |v.moves|
    requires v.moves[i] == ArchiveOp(q.stamp, [target]) && v.moves[j] == ArchiveOp(q.stamp, [meta, target])
    ensures Stranded(v, q.stamp, Elements(v.moves[..i + 1]), meta, target)
  {
    AcceptedOnce(t, q, v);
    OpsAre(v);
    hide Accepted, Ops, NoDup, Elements, ArchiveOp;
    Distinct(v.moves, v.relabels, i, j);
  }

  lemma OpsAre(v: Verdict)
    ensures Ops(v) == v.moves + v.relabels
  {
  }

  /** On the tree with one month of funding history, dying after the fourth step strands that history:
      it is still under the legacy name, and no second request with the same relabel choice plans to
      move it. */
  lemma FundingStranded(q: Request, q': Request)
    requires Legacy() + "-OKX" in q.dated && !q.relabelMeta && !q'.relabelMeta
    ensures var t, meta := WithMeta(), "meta_funding_rate";
            && Cleared(t, q) && 4 <= |Program(Checked(t, q), q.stamp)|
            && Stranded(Checked(t, q), q.stamp, DoneBy(t, q, 4), meta, Legacy())
            && IsDir(Stopped(t, q, 4), MetaPartition(meta, Legacy()))
            && [meta, Legacy()] !in AllMoves(Plan(Stopped(t, q, 4), q'.dated, q'.relabelMeta))
  {
    var t, meta := WithMeta(), "meta_funding_rate";
    assert "-OKX" in SUFFIXES by { assert SUFFIXES[0] == "-OKX"; }
    hide *;
    WithMetaIsSimple();
    MetaHistoryUnreplaced(q, 0, "-OKX");
    var i := SomewhereStranded(t, q, meta, Legacy());
    FirstMoveIsLegacy(t, q, i);
    FourStepsComplete(t, q, Checked(t, q));
    StrandedStays(t, q, 4, q', meta, Legacy());
  }

  /** With the other relabel choice that funding history is taken up after all, and relabelled. */
  lemma FundingRelabelled(q: Request, q': Request)
    requires Legacy() + "-OKX" in q.dated && !q.relabelMeta && q'.relabelMeta
    ensures 4 <= |Program(Checked(WithMeta(), q), q.stamp)|
    ensures RelabelOp("meta_funding_rate") in AllRelabels(Plan(Stopped(WithMeta(), q, 4), q'.dated, q'.relabelMeta))
  {
    var t, meta := WithMeta(), "meta_funding_rate";
    assert RelabelOp(meta).src == MetaPartition(meta, Legacy()) && IsMeta(meta) by { assert MetaDirs()[0] == meta; }
    hide *;
    FundingStranded(q, q.(stamp := ""));
    WithMetaIsSimple();
    NoSuffixedName(q);
    RelabelIsPlanned(Stopped(t, q, 4), q', meta);
  }

  lemma NoSuffixedName(q: Request)
    requires Legacy() + "-OKX" in q.dated && !q.relabelMeta && 4 <= |Program(Checked(WithMeta(), q), q.stamp)|
    ensures RelabelOp("meta_funding_rate").dst !in Stopped(WithMeta(), q, 4)
  {
    var t, dst := WithMeta(), RelabelOp("meta_funding_rate").dst;
    WithMetaIsSimple();
    SimpleCleared(t, q);
    ClearedOrderly(t, q);
    SuffixAside(t, q, Checked(t, q));
    SuffixAbsent();
    assert Rooted(t);
    hide *;
    AsideAtCrash(t, q, Checked(t, q), 4, dst);
  }

  lemma SuffixAside(t: Tree, q: Request, v: Verdict)
    requires Accepted(t, q, v) && !q.relabelMeta
    ensures var a := RelabelOp("meta_funding_rate").dst;
            Clear(a, Elements(Ops(v))) && a != ManifestPath(q.stamp) && !(a <= ArchiveRoot()) && !(ArchiveRoot() <= a)
  {
    var meta, target := "meta_funding_rate", RelabelTarget();
    assert IsMeta(meta) && IsTarget(target) by { assert MetaDirs()[0] == meta && LegacyTargets()[0] == target; }
    assert SUFFIXES[0] == "-OKX";
    assert RelabelOp(meta).dst == MetaPartition(meta, target + "-OKX");
    hide Accepted, Clear, IsMeta, IsTarget, ManifestPath, ArchiveRoot, MetaPartition;
    SuffixedMetaClear(t, q, v, meta, target, "-OKX", RelabelOp(meta).dst);
  }

  lemma SuffixAbsent()
    ensures RelabelOp("meta_funding_rate").dst !in WithMeta()
  {
    var a, d := RelabelOp("meta_funding_rate").dst, MetaYear();
    assert |a| == 4 && |a[3]| == 12 && |d| == 5 && |d[3]| == 8;
    hide MetaYear, RelabelOp, Plain, Ancestors, Legacy;
    AncestorsAre(d, a);
    if a in Plain() { ShortPlain(a); }
  }

  // What is stranded stands under its legacy name, and is not planned again.
  lemma StrandedStays(t: Tree, q: Request, k: nat, q': Request, meta: string, target: string)
    requires Cleared(t, q) && k <= |Program(Checked(t, q), q.stamp)| && q'.relabelMeta == q.relabelMeta
    requires Stranded(Checked(t, q), q.stamp, DoneBy(t, q, k), meta, target)
    ensures IsDir(Stopped(t, q, k), MetaPartition(meta, target))
    ensures [meta, target] !in AllMoves(Plan(Stopped(t, q, k), q'.dated, q'.relabelMeta))
  {
    var sub := [meta, target];
    assert ArchiveOp(q.stamp, sub).src == MetaPartition(meta, target) && |sub| == 2 && sub[1] == target;
    assert Stranded(Checked(t, q), q.stamp, DoneBy(t, q, k), meta, target);
    hide Cleared, Checked, Program, Stopped, ArchiveOp, MetaPartition, IsDir, Plan, AllMoves, DoneBy;
    MoveIsOp(Checked(t, q), ArchiveOp(q.stamp, sub));
    PendingStands(t, q, k, ArchiveOp(q.stamp, sub));
    PendingPlanned(t, q, k, q', sub);
  }

  // The only bar directory of such a tree is moved first.
  lemma FirstMoveIsLegacy(t: Tree, q: Request, i: nat)
    requires Simple(t) && Cleared(t, q) && i < |Checked(t, q).moves|
    requires Checked(t, q).moves[i] == ArchiveOp(q.stamp, [Legacy()])
    ensures Checked(t, q).moves[0] == ArchiveOp(q.stamp, [Legacy()]) && i == 0
  {
    var v, plan := Checked(t, q), Plan(t, q.dated, q.relabelMeta);
    var subs := AllMoves(plan);
    hide Checked, Plan, AllMoves, Rooted, ArchiveOp, Passes, Accepted, Movable, Orderly, Simple, Legacy, Partition,
        Program, IsTarget, IsMeta, IsDir, Ops;
    VerdictOfPlan(t, q, plan);
    BarMovesFirst(t, q.dated, q.relabelMeta);
    ClearedOrderly(t, q);
    assert v.moves[0] == ArchiveOp(q.stamp, subs[0]);
    MoveIsSub(t, q, v, subs[0]);
    assert |subs[0]| == 1 && subs[0] == [subs[0][0]];
    NotManifest(t, q, v, v.moves[0]);
    BarPath(q.stamp, subs[0][0]);
    OnlyLegacy(t, subs[0][0]);
    if i > 0 {
      AcceptedOnce(t, q, v);
      OpsAre(v);
      Distinct(v.moves, v.relabels, 0, i);
    }
  }

  lemma BarPath(stamp: string, target: string)
    ensures ArchiveOp(stamp, [target]).src == Partition(target)
  {
  }

  lemma FourStepsComplete(t: Tree, q: Request, v: Verdict)
    requires Simple(t) && v.moves != [] && v.moves[0] == ArchiveOp(q.stamp, [Legacy()])
    requires 4 <= |Program(v, q.stamp)|
    ensures Completes(t, Program(v, q.stamp)[..4])
  {
    var op := v.moves[0];
    var opening := [MkDirs(ArchiveRoot()), Write(ManifestPath(q.stamp), Record(v, Planned))];
    var moving := [MkDirs(Parent(op.dst)), Move(op)];
    Through(v, q.stamp, 1);
    assert MoveSteps(v.moves, 1) == moving;
    assert Program(v, q.stamp)[..4] == opening + moving;
    OpeningCompletes(t, q, v);
    MovingCompletes(Run(t, opening), q.stamp, op);
    hide Run, Completes, ArchiveRoot, ManifestPath, ArchiveOp, Parent, Legacy, Simple, Program;
    RunAppend(t, opening, moving);
  }
}
