/** The one file an applied run does overwrite. The stamp has a resolution of one second, so a second
    run within it writes its manifest over the first one's; having found nothing left to move, it
    records no moves, and the rollback reference of a run that moved anything is gone. */
module ArchiveRerun {
  import opened Common
  import opened ArchiveTree
  import opened ArchivePlan
  import opened ArchiveShape
  import opened ArchiveMigration
  import opened ArchiveSafety

  lemma {:induction false} AllMoved(t: Tree, steps: seq<Step>)
    requires Completes(t, steps)
    ensures Moved(t, steps) == MovesIn(steps)
    decreases |steps|
  {
    if steps != [] {
      AllMoved(Perform(t, steps[0]).value, steps[1..]);
      assert steps == [steps[0]] + steps[1..];
    }
  }

  // What a finished run leaves behind.
  lemma Finished(t: Tree, q: Request, v: Verdict)
    requires Rooted(t) && Accepted(t, q, v) && Completes(t, Program(v, q.stamp))
    ensures var base := Run(t, WithoutMoves(Program(v, q.stamp)));
            && Movable(base, Elements(Ops(v)))
            && Arranged(base, Elements(Ops(v)), Run(t, Program(v, q.stamp)))
  {
    var program := Program(v, q.stamp);
    ProgramOrderly(t, q, v);
    AllMoved(t, program);
    ProgramMoves(v, q.stamp);
    hide Accepted, Movable, Orderly, Rooted, Ops, Program, Run, Arranged;
    assert program[..|program|] == program;
    var done := MovedArranges(t, Elements(Ops(v)), program, |program|);
  }

  lemma ProgramMoves(v: Verdict, stamp: string)
    ensures MovesIn(Program(v, stamp)) == Elements(Ops(v))
  {
    var a := Opening(v, stamp) + MoveSteps(v.moves, |v.moves|) + RelabelSteps(v.relabels, |v.relabels|);
    var last := Write(ManifestPath(stamp), Record(v, Applied));
    RelabeledSoFar(v, stamp, |v.relabels|);
    assert Ops(v)[..|Ops(v)|] == Ops(v);
    hide Opening, MoveSteps, RelabelSteps, ManifestPath;
    MovesInConcat(a, [last]);
    assert MovesIn([last]) == {};
  }

  lemma SourcesGone(t: Tree, q: Request, v: Verdict, o: Relocation)
    requires Rooted(t) && Accepted(t, q, v) && Completes(t, Program(v, q.stamp)) && o in Ops(v)
    ensures o.src !in Run(t, Program(v, q.stamp))
  {
    var s := Run(t, Program(v, q.stamp));
    hide Rooted, Accepted, Movable, Ops, Program, Run, Arranged;
    Finished(t, q, v);
    DestinationFree(Run(t, WithoutMoves(Program(v, q.stamp))), Elements(Ops(v)), Elements(Ops(v)), s, o);
  }

  // A path that no operation, no directory and no manifest of the run concerns is as it was.
  lemma AsideUnchanged(t: Tree, q: Request, v: Verdict, a: Path)
    requires Rooted(t) && Accepted(t, q, v)
    requires Clear(a, Elements(Ops(v))) && a != ManifestPath(q.stamp)
    requires !(a <= ArchiveRoot()) && !(ArchiveRoot() <= a)
    ensures var s := Run(t, Program(v, q.stamp));
            (a in s <==> a in t) && (a in t ==> s[a] == t[a])
  {
    hide *;
    AsideAtCrash(t, q, v, |Program(v, q.stamp)|, a);
    assert Program(v, q.stamp)[..|Program(v, q.stamp)|] == Program(v, q.stamp);
  }

  lemma NoTargetLeft(t: Tree, q: Request, target: string)
    requires Cleared(t, q) && Completes(t, Program(Checked(t, q), q.stamp)) && IsTarget(target)
    ensures !IsDir(Run(t, Program(Checked(t, q), q.stamp)), Partition(target))
  {
    var v, a := Checked(t, q), Partition(target);
    ClearedOrderly(t, q);
    assert Rooted(t);
    if IsDir(t, a) {
      hide Program, Run, Checked, Cleared, Completes, Accepted, Rooted;
      TargetCleared(t, q, target);
      assert ArchiveOp(q.stamp, [target]) in Ops(v);
      SourcesGone(t, q, v, ArchiveOp(q.stamp, [target]));
    } else {
      TargetAside(t, q, v, target);
      hide Program, Run, Checked, Cleared, Completes, Accepted, Rooted;
      AsideUnchanged(t, q, v, a);
    }
  }

  lemma TargetAside(t: Tree, q: Request, v: Verdict, target: string)
    requires Accepted(t, q, v) && !IsDir(t, Partition(target))
    ensures Clear(Partition(target), Elements(Ops(v)))
    ensures var a := Partition(target); a != ManifestPath(q.stamp) && !(a <= ArchiveRoot()) && !(ArchiveRoot() <= a)
  {
    var a := Partition(target);
    assert a[1] == "parquet" && ManifestPath(q.stamp)[1] == "parquet_archive" == ArchiveRoot()[1];
    forall o | o in Ops(v) ensures !(o.src <= a) && !(o.dst <= a) {
      hide IsTarget, IsMeta;
      assert |o.src| >= 3 && |o.dst| >= 4 && IsDir(t, o.src);
      assert |o.src| == |a| && o.src <= a ==> o.src == a;
    }
  }

  lemma {:induction false} RelabelPlanned(t: Tree, n: nat, k: nat)
    requires k < n <= |MetaDirs()|
    requires IsDir(t, RelabelOp(MetaDirs()[k]).src) && RelabelOp(MetaDirs()[k]).dst !in t
    ensures RelabelOp(MetaDirs()[k]) in AllRelabels(RelabelEntries(t, n))
  {
    hide MetaDirs, AllRelabels, IsDir, RelabelOp;
    var plan, e := RelabelEntries(t, n - 1), RelabelEntry(MetaDirs()[n - 1]);
    AllMovesLast(plan, e);
    assert e.relabels == [RelabelOp(MetaDirs()[n - 1])];
    assert plan + [] == plan;
    if k < n - 1 {
      RelabelPlanned(t, n - 1, k);
    }
  }

  lemma RelabelCleared(t: Tree, q: Request, k: nat)
    requires Cleared(t, q) && q.relabelMeta && k < |MetaDirs()|
    requires IsDir(t, RelabelOp(MetaDirs()[k]).src) && RelabelOp(MetaDirs()[k]).dst !in t
    ensures RelabelOp(MetaDirs()[k]) in Ops(Checked(t, q))
  {
    hide Checked, AllRelabels, AllMoves, Passes, Rooted, RelabelOp, IsDir, TargetEntries, RelabelEntries, MetaDirs,
        LegacyTargets;
    VerdictOfPlan(t, q, Plan(t, q.dated, q.relabelMeta));
    RelabelPlanned(t, |MetaDirs()|, k);
    AllMovesConcat(TargetEntries(t, q.dated, q.relabelMeta, |LegacyTargets()|), RelabelEntries(t, |MetaDirs()|));
  }

  lemma RelabelAside(t: Tree, q: Request, v: Verdict, meta: string)
    requires Accepted(t, q, v) && q.relabelMeta && IsMeta(meta)
    ensures var op := RelabelOp(meta);
            && op.src != ManifestPath(q.stamp) && !(op.src <= ArchiveRoot()) && !(ArchiveRoot() <= op.src)
            && op.dst != ManifestPath(q.stamp) && !(op.dst <= ArchiveRoot()) && !(ArchiveRoot() <= op.dst)
            && (!IsDir(t, op.src) ==> Clear(op.src, Elements(Ops(v))))
            && (op.dst in t ==> Clear(op.dst, Elements(Ops(v))))
  {
    var op := RelabelOp(meta);
    assert op.src[1] == op.dst[1] == "parquet" && ManifestPath(q.stamp)[1] == "parquet_archive" == ArchiveRoot()[1];
    forall o | o in Ops(v)
      ensures o != op ==> !(o.src <= op.src) && !(o.dst <= op.src) && !(o.src <= op.dst) && !(o.dst <= op.dst)
      ensures o == op ==> IsDir(t, op.src) && op.dst !in t
    {
      if o != op {
        assert op.src[2] == meta && IsRelabelOp(q.relabelMeta, op);
        assert o in v.moves || o in v.relabels;
        OpsApart(q.stamp, q.relabelMeta, o, op);
      }
    }
  }

  lemma OpsApart(stamp: string, relabelMeta: bool, o: Relocation, op: Relocation)
    requires IsOp(stamp, relabelMeta, o) && IsRelabelOp(relabelMeta, op) && o != op
    ensures !(o.src <= op.src) && !(o.dst <= op.src) && !(o.src <= op.dst) && !(o.dst <= op.dst)
  {
    hide IsArchiveOp, IsRelabelOp;
    if IsArchiveOp(stamp, relabelMeta, o) {
      MixedOpsApart(stamp, relabelMeta, o, op);
    } else {
      RelabelOpsApart(relabelMeta, o, op);
      RelabelOpsApart(relabelMeta, op, o);
    }
  }

  lemma NoRelabelLeft(t: Tree, q: Request, k: nat)
    requires Cleared(t, q) && Completes(t, Program(Checked(t, q), q.stamp)) && q.relabelMeta && k < |MetaDirs()|
    ensures var op, s := RelabelOp(MetaDirs()[k]), Run(t, Program(Checked(t, q), q.stamp));
            !IsDir(s, op.src) || op.dst in s
  {
    var op, v := RelabelOp(MetaDirs()[k]), Checked(t, q);
    ClearedOrderly(t, q);
    RelabelAside(t, q, v, MetaDirs()[k]);
    assert Rooted(t);
    hide Program, Run, Checked, Cleared, Completes, Rooted, Clear, RelabelOp, Accepted, Movable, Orderly,
        ManifestPath, ArchiveRoot, MetaDirs;
    if !IsDir(t, op.src) {
      AsideUnchanged(t, q, v, op.src);
    } else if op.dst in t {
      AsideUnchanged(t, q, v, op.dst);
    } else {
      RelabelCleared(t, q, k);
      SourcesGone(t, q, v, op);
    }
  }

  lemma {:induction false} NoEntries(s: Tree, dated: set<string>, relabelMeta: bool, n: nat)
    requires n <= |LegacyTargets()|
    requires forall target :: IsTarget(target) ==> !IsDir(s, Partition(target))
    ensures TargetEntries(s, dated, relabelMeta, n) == []
  {
    hide LegacyTargets, IsDir, Partition, TargetEntry;
    if n > 0 {
      assert IsTarget(LegacyTargets()[n - 1]);
      NoEntries(s, dated, relabelMeta, n - 1);
    }
  }

  lemma {:induction false} NoRelabelEntries(s: Tree, n: nat)
    requires n <= |MetaDirs()|
    requires forall k :: 0 <= k < |MetaDirs()| ==>
               !IsDir(s, RelabelOp(MetaDirs()[k]).src) || RelabelOp(MetaDirs()[k]).dst in s
    ensures RelabelEntries(s, n) == []
  {
    hide MetaDirs, IsDir, RelabelOp;
    if n > 0 {
      NoRelabelEntries(s, n - 1);
    }
  }

  /** After a finished run the same request finds nothing to do. */
  lemma NothingLeftToPlan(t: Tree, q: Request, q': Request)
    requires Cleared(t, q) && Completes(t, Program(Checked(t, q), q.stamp)) && q'.relabelMeta == q.relabelMeta
    ensures Checked(Run(t, Program(Checked(t, q), q.stamp)), q') == Verdict([], [], [])
  {
    var s := Run(t, Program(Checked(t, q), q.stamp));
    hide Cleared, Completes, Run, Program, IsDir, Partition, RelabelOp;
    forall target | IsTarget(target) ensures !IsDir(s, Partition(target)) {
      NoTargetLeft(t, q, target);
    }
    NoEntries(s, q'.dated, q'.relabelMeta, |LegacyTargets()|);
    if q.relabelMeta {
      forall k | 0 <= k < |MetaDirs()|
        ensures !IsDir(s, RelabelOp(MetaDirs()[k]).src) || RelabelOp(MetaDirs()[k]).dst in s
      {
        NoRelabelLeft(t, q, k);
      }
      NoRelabelEntries(s, |MetaDirs()|);
    }
  }

  lemma ArchiveDirs(t: Tree, q: Request, v: Verdict, a: Path)
    requires Rooted(t) && Accepted(t, q, v) && Completes(t, Program(v, q.stamp)) && a in Ancestors(ArchiveRoot())
    ensures IsDir(Run(t, Program(v, q.stamp)), a)
  {
    var program := Program(v, q.stamp);
    Finished(t, q, v);
    ArchiveClear(q, v, t);
    AncestorClear(ArchiveRoot(), a, Elements(Ops(v)));
    hide Rooted, Accepted, Movable, Orderly, Ops, Arranged, Clear, ManifestPath, ArchiveRoot, MoveSteps, RelabelSteps;
    assert program[0] == MkDirs(ArchiveRoot()) && Perform(t, program[0]).Some?;
    BareTail(t, program);
    BareRunKeepsDirs(Perform(t, program[0]).value, program[1..], a);
    hide Run, Program;
    LookupAside(Run(t, WithoutMoves(program)), Elements(Ops(v)), Elements(Ops(v)), Run(t, program), a);
  }

  lemma ManifestWritten(t: Tree, v: Verdict, stamp: string)
    requires Completes(t, Program(v, stamp))
    ensures var s, m := Run(t, Program(v, stamp)), ManifestPath(stamp);
            m in s && s[m] == File(Record(v, Applied)) && IsDir(s, ArchiveRoot())
  {
    var a := Opening(v, stamp) + MoveSteps(v.moves, |v.moves|) + RelabelSteps(v.relabels, |v.relabels|);
    var last := Write(ManifestPath(stamp), Record(v, Applied));
    assert Parent(ManifestPath(stamp)) == ArchiveRoot() && ArchiveRoot() != ManifestPath(stamp);
    hide Opening, MoveSteps, RelabelSteps, ManifestPath, ArchiveRoot;
    RunAppend(t, a, [last]);
    assert [last][1..] == [];
  }

  lemma MadeAlready(s: Tree, d: Path)
    requires forall a :: a in Ancestors(d) ==> IsDir(s, a)
    ensures Perform(s, MkDirs(d)) == Some(s)
  {
    assert s + (map a | a in Ancestors(d) :: Dir) == s;
  }

  lemma RunThree(s: Tree, a: Step, b: Step, c: Step, s': Tree, s'': Tree)
    requires Perform(s, a) == Some(s) && Perform(s, b) == Some(s') && Perform(s', c) == Some(s'')
    ensures Run(s, [a, b, c]) == s''
  {
    hide Perform;
    assert [a, b, c][1..] == [b, c] && [b, c][1..] == [c] && [c][1..] == [];
    assert Run(s', [c]) == s'';
    assert Run(s, [b, c]) == s'';
  }

  lemma RunBlocked(s: Tree, a: Step, b: Step, c: Step)
    requires Perform(s, a) == Some(s) && Perform(s, b) == None
    ensures Run(s, [a, b, c]) == s
  {
    hide Perform;
    assert [a, b, c][1..] == [b, c];
    assert Run(s, [b, c]) == s;
  }

  // A run with nothing to move: it writes its manifest, unless a directory stands in its place.
  lemma EmptyRun(s: Tree, stamp: string)
    requires forall a :: a in Ancestors(ArchiveRoot()) ==> IsDir(s, a)
    ensures var m := ManifestPath(stamp);
            Run(s, Program(Verdict([], [], []), stamp)) ==
            if IsDir(s, m) then s else s[m := File(Manifest(Applied, [], []))]
  {
    var none, m := Verdict([], [], []), ManifestPath(stamp);
    assert Parent(m) == ArchiveRoot() && ArchiveRoot() != m && m != [];
    assert ArchiveRoot()[..|ArchiveRoot()|] == ArchiveRoot();
    hide ManifestPath, ArchiveRoot, Run;
    assert ArchiveRoot() in Ancestors(ArchiveRoot());
    var made, planned := MkDirs(ArchiveRoot()), Write(m, Record(none, Planned));
    var applied := Write(m, Record(none, Applied));
    assert Program(none, stamp) == [made, planned, applied];
    MadeAlready(s, ArchiveRoot());
    hide Ancestors;
    if IsDir(s, m) {
      RunBlocked(s, made, planned, applied);
    } else {
      var s' := s[m := File(Record(none, Planned))];
      RunThree(s, made, planned, applied, s', s'[m := File(Record(none, Applied))]);
    }
  }

  lemma ManifestPathInjective(stamp: string, stamp': string)
    ensures ManifestPath(stamp) == ManifestPath(stamp') <==> stamp == stamp'
  {
    if stamp != stamp' {
      var a, b := "manifest_" + stamp + ".json", "manifest_" + stamp' + ".json";
      assert |a| == |b| ==> a[9..9 + |stamp|] == stamp && b[9..9 + |stamp'|] == stamp';
      assert ManifestPath(stamp)[2] == a && ManifestPath(stamp')[2] == b;
    }
  }

  /** A second run of the same request changes nothing but the manifest of its own second, which then
      records nothing. */
  lemma RerunWrites(t: Tree, q: Request, q': Request)
    requires Cleared(t, q) && Completes(t, Program(Checked(t, q), q.stamp)) && q'.relabelMeta == q.relabelMeta
    ensures var v, m := Checked(t, q), ManifestPath(q.stamp);
            var s := Run(t, Program(v, q.stamp));
            && m in s && s[m] == File(Manifest(Applied, v.moves, v.relabels))
            && var m' := ManifestPath(q'.stamp);
               Run(s, Program(Checked(s, q'), q'.stamp)) ==
               if IsDir(s, m') then s else s[m' := File(Manifest(Applied, [], []))]
  {
    var s := Run(t, Program(Checked(t, q), q.stamp));
    NothingLeftToPlan(t, q, q');
    ManifestWritten(t, Checked(t, q), q.stamp);
    ClearedOrderly(t, q);
    assert Rooted(t);
    hide Cleared, Rooted, Accepted, Movable, Orderly, Completes, Run, Program, IsDir, Checked;
    forall a | a in Ancestors(ArchiveRoot()) ensures IsDir(s, a) {
      ArchiveDirs(t, q, Checked(t, q), a);
    }
    EmptyRun(s, q'.stamp);
  }

  /** The first run's rollback reference is still there after a second run exactly when the second has
      a stamp of its own, or the first had nothing to move. */
  lemma RerunKeepsManifest(t: Tree, q: Request, q': Request)
    requires Cleared(t, q) && Completes(t, Program(Checked(t, q), q.stamp)) && q'.relabelMeta == q.relabelMeta
    ensures var v, m := Checked(t, q), ManifestPath(q.stamp);
            var s := Run(t, Program(v, q.stamp));
            var s' := Run(s, Program(Checked(s, q'), q'.stamp));
            && m in s'
            && (s'[m] == File(Manifest(Applied, v.moves, v.relabels)) <==> q'.stamp != q.stamp || Ops(v) == [])
  {
    RerunWrites(t, q, q');
    ManifestPathInjective(q.stamp, q'.stamp);
    hide Cleared, Completes, Run, Program, Checked, ManifestPath;
  }
}
