/** What an applied archive run keeps at every point where it may die. */
module ArchiveSafety {
  import opened Common
  import opened ArchiveTree
  import opened ArchivePlan
  import opened ArchiveShape
  import opened ArchiveMigration

  ghost predicate Cleared(t: Tree, q: Request) {
    Rooted(t) && Checked(t, q).problems == []
  }

  function Stopped(t: Tree, q: Request, k: nat): Tree
    requires k <= |Program(Checked(t, q), q.stamp)|
  {
    Run(t, Program(Checked(t, q), q.stamp)[..k])
  }

  lemma ClearedOrderly(t: Tree, q: Request)
    requires Cleared(t, q)
    ensures Accepted(t, q, Checked(t, q))
    ensures Movable(t, Elements(Ops(Checked(t, q))))
    ensures Orderly(t, Elements(Ops(Checked(t, q))), {}, Program(Checked(t, q), q.stamp))
  {
    hide Checked, Accepted, Movable, Orderly, Rooted, Ops, Program;
    PassingIsAccepted(t, q);
    ProgramOrderly(t, q, Checked(t, q));
  }

  // The program writes one file, its manifest, and makes directories only around the archive.
  lemma {:induction false} StepsOfMoves(t: Tree, q: Request, v: Verdict, n: nat)
    requires Accepted(t, q, v) && n <= |v.moves|
    ensures forall step :: step in MoveSteps(v.moves, n) ==>
        !step.Write? && (step.MkDirs? ==> ArchiveRoot() <= step.dir)
  {
    if n > 0 {
      StepsOfMoves(t, q, v, n - 1);
      var o := v.moves[n - 1];
      assert o in v.moves;
      assert o.dst == ArchiveRoot() + ([q.stamp] + o.src[2..]);
      assert Parent(o.dst)[..2] == ArchiveRoot();
    }
  }

  lemma {:induction false} StepsOfRelabels(relabels: seq<Relocation>, n: nat)
    requires n <= |relabels|
    ensures forall step :: step in RelabelSteps(relabels, n) ==> step.Move?
  {
    if n > 0 {
      StepsOfRelabels(relabels, n - 1);
    }
  }

  lemma ProgramTouches(t: Tree, q: Request, v: Verdict, k: nat)
    requires Accepted(t, q, v) && k <= |Program(v, q.stamp)|
    ensures forall p :: Written(Program(v, q.stamp)[..k], p) ==> p == ManifestPath(q.stamp)
    ensures forall p :: Made(Program(v, q.stamp)[..k], p) ==> p <= ArchiveRoot() || ArchiveRoot() <= p
  {
    hide Accepted, MoveSteps, RelabelSteps;
    StepsOfMoves(t, q, v, |v.moves|);
    StepsOfRelabels(v.relabels, |v.relabels|);
    var program := Program(v, q.stamp);
    forall step | step in program[..k]
      ensures step.Write? ==> step.path == ManifestPath(q.stamp)
      ensures step.MkDirs? ==> ArchiveRoot() <= step.dir
    {
      assert step in program;
    }
    forall p | Made(program[..k], p) ensures p <= ArchiveRoot() || ArchiveRoot() <= p {
      var step :| step in program[..k] && step.MkDirs? && p <= step.dir;
      Comparable(p, ArchiveRoot(), step.dir);
    }
  }

  /** Wherever the run dies, rolling its manifest back restores every file and directory there was,
      the manifest's own path apart, and leaves nothing new but directories around the archive. */
  lemma CrashIsReversible(t: Tree, q: Request, k: nat)
    requires Cleared(t, q) && k <= |Program(Checked(t, q), q.stamp)|
    ensures var restored := Rollback(Stopped(t, q, k), Ops(Checked(t, q)));
            var manifest := ManifestPath(q.stamp);
            && (forall p :: p in t && p != manifest ==> p in restored && restored[p] == t[p])
            && (forall p :: p in restored && p !in t && p != manifest ==>
                  restored[p] == Dir && (p <= ArchiveRoot() || ArchiveRoot() <= p))
  {
    var v := Checked(t, q);
    var steps := Program(v, q.stamp)[..k];
    ClearedOrderly(t, q);
    hide Checked, Accepted, Movable, Orderly, Rooted, Ops, Program, Run, Rollback, Written, Made, ManifestPath,
        ArchiveRoot;
    CrashThenRollback(t, Ops(v), Program(v, q.stamp), k);
    BareSteps(steps);
    BareRunAdds(t, WithoutMoves(steps));
    ProgramTouches(t, q, v, k);
    BareTouches(steps);
  }

  lemma BareTouches(steps: seq<Step>)
    ensures forall p :: Written(WithoutMoves(steps), p) ==> Written(steps, p)
    ensures forall p :: Made(WithoutMoves(steps), p) ==> Made(steps, p)
  {
    BareSteps(steps);
  }

  /** Wherever the run dies, every file and directory but the manifest's is present, unchanged, at a
      place of its own: where it was, or under the destination its operation names. */
  lemma CrashLosesNothing(t: Tree, q: Request, k: nat, p: Path)
    requires Cleared(t, q) && k <= |Program(Checked(t, q), q.stamp)|
    requires p in t && p != ManifestPath(q.stamp)
    ensures var done := Moved(t, Program(Checked(t, q), q.stamp)[..k]);
            && done <= Elements(Ops(Checked(t, q)))
            && Place(done, p) in Stopped(t, q, k)
            && Stopped(t, q, k)[Place(done, p)] == t[p]
            && forall p' :: p' in t && p' != p ==> Place(done, p') != Place(done, p)
  {
    var v := Checked(t, q);
    ClearedOrderly(t, q);
    hide Checked, Accepted, Movable, Orderly, Rooted, Program, Run, Written, Place;
    ProgramTouches(t, q, v, k);
    NothingLost(t, Elements(Ops(v)), Program(v, q.stamp), k, p);
  }

  // At every crash point, a path that no operation, no directory and no manifest of the run concerns
  // is as it was.
  lemma AsideAtCrash(t: Tree, q: Request, v: Verdict, k: nat, a: Path)
    requires Rooted(t) && Accepted(t, q, v) && k <= |Program(v, q.stamp)|
    requires Clear(a, Elements(Ops(v))) && a != ManifestPath(q.stamp)
    requires !(a <= ArchiveRoot()) && !(ArchiveRoot() <= a)
    ensures var s := Run(t, Program(v, q.stamp)[..k]);
            (a in s <==> a in t) && (a in t ==> s[a] == t[a])
  {
    var steps := Program(v, q.stamp)[..k];
    ProgramOrderly(t, q, v);
    hide Rooted, Accepted, Movable, Orderly, Ops, Program, Run, Arranged, Written, Made, Clear, ManifestPath,
        ArchiveRoot;
    var done := MovedArranges(t, Elements(Ops(v)), Program(v, q.stamp), k);
    BareSteps(steps);
    BareRunAdds(t, WithoutMoves(steps));
    BareTouches(steps);
    ProgramTouches(t, q, v, k);
    LookupAside(Run(t, WithoutMoves(steps)), Elements(Ops(v)), done, Run(t, steps), a);
  }

  /******* The coverage gate *******/

  lemma CoverageMonotone(t: Tree, s: Tree, dir: Path)
    requires forall p :: p in t && dir <= p ==> p in s && s[p] == t[p]
    ensures CoveredMonths(t, dir) <= CoveredMonths(s, dir)
  {
    forall m | m in CoveredMonths(t, dir) ensures m in CoveredMonths(s, dir) {
      var p :| p in t && IsMonthFile(t, dir, p) && MonthOf(t, dir, p) == m;
      assert dir <= Parent(p) && dir <= p;
      assert IsMonthFile(s, dir, p) && MonthOf(s, dir, p) == m;
    }
  }

  lemma ReplacementName(t: Tree, dated: set<string>, legacy: string)
    requires IsTarget(legacy) && Replacement(t, dated, legacy).Some?
    ensures 12 <= |Replacement(t, dated, legacy).value| <= 16
  {
    TargetLength(legacy);
    var s :| s in SUFFIXES && Replacement(t, dated, legacy).value == legacy + s;
  }

  lemma MetaLonger(meta: string)
    requires IsMeta(meta)
    ensures |meta| > 16
  {
  }

  // No operation reaches a replacement partition.
  lemma ReplacementAside(t: Tree, q: Request, v: Verdict, name: string, p: Path)
    requires Accepted(t, q, v) && 12 <= |name| <= 16 && Partition(name) <= p
    ensures forall o :: o in Ops(v) ==> !(o.src <= p)
  {
    forall o | o in Ops(v) ensures !(o.src <= p) {
      hide IsTarget, IsMeta, ParquetDir;
      assert p[2] == name;
      if o in v.relabels {
        MetaLonger(o.src[2]);
      } else {
        assert o in v.moves;
        var sub := o.src[2..];
        assert o.src[2] == sub[0];
        if |sub| == 1 { TargetLength(sub[0]); } else { MetaLonger(sub[0]); }
      }
    }
  }

  lemma {:induction false} TargetPlanned(t: Tree, dated: set<string>, relabelMeta: bool, n: nat, k: nat)
    requires k < n <= |LegacyTargets()| && IsDir(t, Partition(LegacyTargets()[k]))
    ensures TargetEntry(t, dated, relabelMeta, LegacyTargets()[k]) in TargetEntries(t, dated, relabelMeta, n)
    ensures [LegacyTargets()[k]] in AllMoves(TargetEntries(t, dated, relabelMeta, n))
  {
    hide LegacyTargets, AllMoves, IsDir, Partition, Replacement, MetaMoves;
    var plan, target := TargetEntries(t, dated, relabelMeta, n - 1), LegacyTargets()[n - 1];
    if IsDir(t, Partition(target)) {
      AllMovesLast(plan, TargetEntry(t, dated, relabelMeta, target));
      assert TargetEntry(t, dated, relabelMeta, target).moves[0] == [target];
    } else {
      assert plan + [] == plan;
    }
    if k < n - 1 {
      TargetPlanned(t, dated, relabelMeta, n - 1, k);
    }
  }

  lemma TargetInPlan(t: Tree, q: Request, target: string)
    requires IsTarget(target) && IsDir(t, Partition(target))
    ensures TargetEntry(t, q.dated, q.relabelMeta, target) in Plan(t, q.dated, q.relabelMeta)
    ensures [target] in AllMoves(Plan(t, q.dated, q.relabelMeta))
  {
    var k :| 0 <= k < |LegacyTargets()| && LegacyTargets()[k] == target;
    hide AllMoves, LegacyTargets, RelabelEntries, TargetEntry, TargetEntries, IsDir, Partition;
    TargetPlanned(t, q.dated, q.relabelMeta, |LegacyTargets()|, k);
    AllMovesConcat(TargetEntries(t, q.dated, q.relabelMeta, |LegacyTargets()|),
                   if q.relabelMeta then RelabelEntries(t, |MetaDirs()|) else []);
  }

  lemma ArchivedMember(stamp: string, subs: seq<Path>, sub: Path)
    requires sub in subs
    ensures ArchiveOp(stamp, sub) in Archived(stamp, subs)
  {
    var i :| 0 <= i < |subs| && subs[i] == sub;
    assert Archived(stamp, subs)[i] == ArchiveOp(stamp, sub);
  }

  lemma TargetCleared(t: Tree, q: Request, target: string)
    requires Cleared(t, q) && IsTarget(target) && IsDir(t, Partition(target))
    ensures Replacement(t, q.dated, target).Some?
    ensures ArchiveOp(q.stamp, [target]) in Checked(t, q).moves
  {
    hide Checked, AllMoves, Archived, Plan, Rooted, Replacement, MetaMoves, IsDir, Partition, ArchiveOp;
    var plan := Plan(t, q.dated, q.relabelMeta);
    VerdictOfPlan(t, q, plan);
    TargetInPlan(t, q, target);
    ArchivedMember(q.stamp, AllMoves(plan), [target]);
    assert Passes(t, q.stamp, TargetEntry(t, q.dated, q.relabelMeta, target));
  }

  /** Wherever the run dies, each legacy bar directory that the plan took up still has every one of
      its months in the suffixed partition that was accepted as its replacement. */
  lemma CrashKeepsCoverage(t: Tree, q: Request, k: nat, target: string)
    requires Cleared(t, q) && k <= |Program(Checked(t, q), q.stamp)|
    requires IsTarget(target) && IsDir(t, Partition(target))
    ensures var r := Replacement(t, q.dated, target);
            && r.Some?
            && CoveredMonths(t, Partition(target)) <= CoveredMonths(Stopped(t, q, k), Partition(r.value))
  {
    TargetCleared(t, q, target);
    var r, s := Replacement(t, q.dated, target).value, Stopped(t, q, k);
    assert Replaces(t, q.dated, target, r);
    ReplacementName(t, q.dated, target);
    ClearedOrderly(t, q);
    hide Checked, Accepted, Replacement, CoveredMonths, Rooted, Program, Stopped, Partition, IsDir;
    forall p | p in t && Partition(r) <= p ensures p in s && s[p] == t[p] {
      ReplacementAside(t, q, Checked(t, q), r, p);
      ReplacementNotManifest(q.stamp, r, p);
      CrashLosesNothing(t, q, k, p);
      Unmoved(Moved(t, Program(Checked(t, q), q.stamp)[..k]), Ops(Checked(t, q)), p);
    }
    CoverageMonotone(t, s, Partition(r));
  }

  lemma ReplacementNotManifest(stamp: string, name: string, p: Path)
    requires Partition(name) <= p
    ensures p != ManifestPath(stamp)
  {
    assert p[1] == "parquet" && ManifestPath(stamp)[1] == "parquet_archive";
  }

  lemma Unmoved(done: set<Relocation>, ops: seq<Relocation>, p: Path)
    requires done <= Elements(ops) && forall o :: o in ops ==> !(o.src <= p)
    ensures Place(done, p) == p
  {
  }

  /******* What blocks a run *******/

  // Planning and checking the same tree, the only reasons to block are a missing replacement
  // and a destination that already exists; a relabelling never blocks.
  lemma BlockedExactly(t: Tree, q: Request)
    ensures var plan := Plan(t, q.dated, q.relabelMeta);
            Checked(t, q).problems == [] <==>
            && (forall e :: e in plan ==> e.replacement.Some?)
            && (forall e, sub :: e in plan && sub in e.moves ==> ArchiveOp(q.stamp, sub).dst !in t)
  {
    var plan := Plan(t, q.dated, q.relabelMeta);
    hide Plan, CheckPlan, ArchiveOp;
    CheckPlanResult(t, q.stamp, plan, |plan|);
    assert forall e :: e in plan <==> exists i :: 0 <= i < |plan| && plan[i] == e;
    forall e | e in plan
      ensures Passes(t, q.stamp, e) <==> e.replacement.Some? && forall sub :: sub in e.moves ==>
          ArchiveOp(q.stamp, sub).dst !in t
    {
      PlannedExists(t, q, e);
    }
  }

  lemma PlannedExists(t: Tree, q: Request, e: Entry)
    requires e in Plan(t, q.dated, q.relabelMeta)
    ensures forall sub :: sub in e.moves ==> IsDir(t, ArchiveOp(q.stamp, sub).src)
    ensures forall op :: op in e.relabels ==> Reason(t, op).None?
  {
    hide LegacyTargets, MetaDirs;
    if e in TargetEntries(t, q.dated, q.relabelMeta, |LegacyTargets()|) {
      TargetSources(t, q.dated, q.relabelMeta, |LegacyTargets()|, e);
    } else {
      RelabelEntriesPass(t, |MetaDirs()|);
    }
  }

  lemma {:induction false} TargetSources(t: Tree, dated: set<string>, relabelMeta: bool, n: nat, e: Entry)
    requires n <= |LegacyTargets()| && e in TargetEntries(t, dated, relabelMeta, n)
    ensures forall sub :: sub in e.moves ==> IsDir(t, ParquetDir() + sub)
    ensures e.relabels == []
  {
    hide LegacyTargets, MetaDirs, ParquetDir, Replacement;
    if e in TargetEntries(t, dated, relabelMeta, n - 1) {
      TargetSources(t, dated, relabelMeta, n - 1, e);
    } else {
      MetaSources(t, relabelMeta, LegacyTargets()[n - 1], |MetaDirs()|);
    }
  }

  lemma {:induction false} MetaSources(t: Tree, relabelMeta: bool, target: string, n: nat)
    requires n <= |MetaDirs()|
    ensures forall sub :: sub in MetaMoves(t, relabelMeta, target, n) ==> IsDir(t, ParquetDir() + sub)
  {
    hide MetaDirs, ParquetDir;
    if n > 0 {
      MetaSources(t, relabelMeta, target, n - 1);
    }
  }
}
