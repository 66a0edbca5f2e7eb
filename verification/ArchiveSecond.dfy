/** A second run on the tree that a first one left, wherever either of them dies, and what becomes of the
    first one's manifest; and a manifest torn in the writing. */
module ArchiveSecond {
  import opened Common
  import opened ArchiveTree
  import opened ArchivePlan
  import opened ArchiveMigration
  import opened ArchiveSafety
  import opened ArchiveRerun
  import opened ArchiveManifest

  // A step that neither writes the file nor moves it away.
  predicate Spares(step: Step, m: Path) {
    match step
    case MkDirs(_) => true
    case Write(p, _) => p != m
    case Move(op) => !(op.src <= m)
  }

  lemma SparedStep(t: Tree, m: Path, step: Step)
    requires m in t && t[m].File? && Spares(step, m) && Perform(t, step).Some?
    ensures m in Perform(t, step).value && Perform(t, step).value[m] == t[m]
  {
    if step.Move? {
      RelocatedKeeps(t, step.op);
      assert Forward(m, step.op) == m;
    }
  }

  lemma {:induction false} SparedRun(t: Tree, m: Path, steps: seq<Step>)
    requires m in t && t[m].File? && forall step :: step in steps ==> Spares(step, m)
    ensures m in Run(t, steps) && Run(t, steps)[m] == t[m]
    decreases |steps|
  {
    if steps != [] && Perform(t, steps[0]).Some? {
      SparedStep(t, m, steps[0]);
      SparedRun(Perform(t, steps[0]).value, m, steps[1..]);
    }
  }

  // No run's operations reach any run's manifest.
  lemma ManifestsClear(t: Tree, q: Request, v: Verdict, stamp: string)
    requires Accepted(t, q, v)
    ensures forall o :: o in Ops(v) ==> !(o.src <= ManifestPath(stamp))
  {
    var m := ManifestPath(stamp);
    forall o | o in Ops(v) ensures !(o.src <= m) {
      assert |o.src| >= 3 && o.src[1] == "parquet" && m[1] == "parquet_archive";
    }
  }

  lemma ProgramSpares(t: Tree, q: Request, v: Verdict, stamp: string, step: Step)
    requires Accepted(t, q, v) && step in Program(v, q.stamp) && (step.Write? ==> step.path != ManifestPath(stamp))
    ensures Spares(step, ManifestPath(stamp))
  {
    ManifestsClear(t, q, v, stamp);
    ProgramMoves(v, q.stamp);
    hide Accepted, ManifestPath, Program, Ops;
    if step.Move? {
      assert step.op in MovesIn(Program(v, q.stamp));
      InElements(Ops(v), step.op);
    }
  }

  lemma InElements(ops: seq<Relocation>, o: Relocation)
    requires o in Elements(ops)
    ensures o in ops
  {
  }

  // Only the second and the last step of a program write.
  lemma WritesAre(t: Tree, q: Request, v: Verdict, i: nat)
    requires Accepted(t, q, v) && i < |Program(v, q.stamp)|
    ensures Program(v, q.stamp)[i].Write? <==> i == 1 || i == |Program(v, q.stamp)| - 1
    ensures Program(v, q.stamp)[i].Write? ==> Program(v, q.stamp)[i].path == ManifestPath(q.stamp)
  {
    StepsOfMoves(t, q, v, |v.moves|);
    StepsOfRelabels(v.relabels, |v.relabels|);
    hide Accepted, ManifestPath, ArchiveRoot, MoveSteps, RelabelSteps;
    var moving := MoveSteps(v.moves, |v.moves|) + RelabelSteps(v.relabels, |v.relabels|);
    assert Program(v, q.stamp) == Opening(v, q.stamp) + moving + [Write(ManifestPath(q.stamp), Record(v, Applied))];
    if 2 <= i < |Program(v, q.stamp)| - 1 {
      assert Program(v, q.stamp)[i] == moving[i - 2] && moving[i - 2] in moving;
    }
  }

  // The status the manifest has once so many steps are done.
  function StatusAt(v: Verdict, stamp: string, k: nat): Status {
    if k >= |Program(v, stamp)| then Applied else Planned
  }

  lemma OtherStamp(s: Tree, q: Request, stamp: string, k: nat)
    requires Checked(s, q).problems == [] && k <= |Program(Checked(s, q), q.stamp)| && q.stamp != stamp
    requires ManifestPath(stamp) in s && s[ManifestPath(stamp)].File?
    ensures var s', m := Run(s, Program(Checked(s, q), q.stamp)[..k]), ManifestPath(stamp);
            m in s' && s'[m] == s[m]
  {
    var v, m := Checked(s, q), ManifestPath(stamp);
    var steps := Program(v, q.stamp)[..k];
    PassingIsAccepted(s, q);
    ManifestPathInjective(stamp, q.stamp);
    hide Checked, Accepted, Program, ManifestPath, Run, Spares;
    forall step | step in steps ensures Spares(step, m) {
      var i :| 0 <= i < |steps| && steps[i] == step;
      WritesAre(s, q, v, i);
      ProgramSpares(s, q, v, stamp, step);
    }
    SparedRun(s, m, steps);
  }

  lemma OpeningWrites(s: Tree, v: Verdict, stamp: string)
    requires Completes(s, Opening(v, stamp))
    ensures ManifestPath(stamp) in Run(s, Opening(v, stamp))
    ensures Run(s, Opening(v, stamp))[ManifestPath(stamp)] == File(Record(v, Planned))
  {
    var a, b := MkDirs(ArchiveRoot()), Write(ManifestPath(stamp), Record(v, Planned));
    hide ManifestPath, ArchiveRoot, Record;
    assert [a, b][1..] == [b] && [b][1..] == [];
    var t := Perform(s, a).value;
    assert Completes(t, [b]) && Run(s, [a, b]) == Run(t, [b]);
    assert Run(t, [b]) == Perform(t, b).value;
  }

  // The steps between the two writes leave the manifest as it is.
  lemma MiddleSpares(s: Tree, q: Request, v: Verdict, t: Tree, k: nat)
    requires Accepted(s, q, v) && 2 <= k < |Program(v, q.stamp)|
    requires ManifestPath(q.stamp) in t && t[ManifestPath(q.stamp)].File?
    ensures var t', m := Run(t, Program(v, q.stamp)[2..k]), ManifestPath(q.stamp);
            m in t' && t'[m] == t[m]
  {
    var m, steps := ManifestPath(q.stamp), Program(v, q.stamp)[2..k];
    hide Accepted, Program, ManifestPath, Run, Spares;
    forall step | step in steps ensures Spares(step, m) {
      var i :| 0 <= i < |steps| && steps[i] == step;
      assert step == Program(v, q.stamp)[i + 2];
      WritesAre(s, q, v, i + 2);
      ProgramSpares(s, q, v, q.stamp, step);
    }
    SparedRun(t, m, steps);
  }

  lemma SameStamp(s: Tree, q: Request, v: Verdict, k: nat)
    requires Accepted(s, q, v) && 2 <= k < |Program(v, q.stamp)| && Completes(s, Program(v, q.stamp)[..k])
    ensures var s', m := Run(s, Program(v, q.stamp)[..k]), ManifestPath(q.stamp);
            m in s' && s'[m] == File(Record(v, Planned))
  {
    var program := Program(v, q.stamp);
    ProgramOpens(v, q.stamp);
    assert program[..2] == Opening(v, q.stamp);
    assert program[..k] == program[..2] + program[2..k];
    hide Accepted, Program, Opening, ManifestPath, Run, Completes, Record;
    RunAppend(s, program[..2], program[2..k]);
    OpeningWrites(s, v, q.stamp);
    MiddleSpares(s, q, v, Run(s, program[..2]), k);
  }

  /** Whatever the second request, once k of its steps are done the first run's manifest is as it was
      exactly when the stamps differ, or the second run has not written yet, or it writes the same: the
      same operations with the same status. A blocked second run does nothing. */
  lemma SecondRunManifest(t: Tree, q: Request, k: nat, q': Request, k': nat)
    requires Cleared(t, q) && k <= |Program(Checked(t, q), q.stamp)|
    requires var s := Stopped(t, q, k);
             && Recorded(s, ManifestPath(q.stamp), Checked(t, q))
             && Checked(s, q').problems == [] && k' <= |Program(Checked(s, q'), q'.stamp)|
             && Completes(s, Program(Checked(s, q'), q'.stamp)[..k'])
    ensures var s, m := Stopped(t, q, k), ManifestPath(q.stamp);
            var v, v' := Checked(t, q), Checked(s, q');
            var s' := Run(s, Program(v', q'.stamp)[..k']);
            && m in s'
            && (s'[m] == s[m] <==>
                || q'.stamp != q.stamp || k' < 2
                || (v'.moves == v.moves && v'.relabels == v.relabels
                    && s[m].content.status == StatusAt(v', q'.stamp, k')))
  {
    var s, m := Stopped(t, q, k), ManifestPath(q.stamp);
    var v' := Checked(s, q');
    var program := Program(v', q'.stamp);
    PassingIsAccepted(s, q');
    ProgramOpens(v', q'.stamp);
    hide Cleared, Checked, Accepted, Completes, Program, ManifestPath, Run, Stopped;
    if q'.stamp != q.stamp {
      OtherStamp(s, q', q.stamp, k');
    } else if k' < 2 {
      NotYetWritten(s, v', q'.stamp, k');
    } else if k' < |program| {
      SameStamp(s, q', v', k');
    } else {
      assert program[..k'] == program;
      ManifestWritten(s, v', q'.stamp);
    }
  }

  lemma NotYetWritten(s: Tree, v: Verdict, stamp: string, k: nat)
    requires k < 2 && k <= |Program(v, stamp)| && ManifestPath(stamp) in s && s[ManifestPath(stamp)].File?
    ensures var s', m := Run(s, Program(v, stamp)[..k]), ManifestPath(stamp);
            m in s' && s'[m] == s[m]
  {
    ProgramOpens(v, stamp);
    var steps := Program(v, stamp)[..k];
    hide Program, ManifestPath, Run;
    assert forall step :: step in steps ==> step == MkDirs(ArchiveRoot());
    SparedRun(s, ManifestPath(stamp), steps);
  }

  /******* A manifest torn in the writing *******/

  lemma DoneSourceGone(t: Tree, q: Request, v: Verdict, k: nat, o: Relocation)
    requires Rooted(t) && Accepted(t, q, v) && k <= |Program(v, q.stamp)| && o in Moved(t, Program(v, q.stamp)[..k])
    ensures o in Elements(Ops(v)) && o.src !in Run(t, Program(v, q.stamp)[..k])
  {
    ProgramOrderly(t, q, v);
    hide Rooted, Accepted, Movable, Orderly, Program, Run, Arranged, Moved;
    var done := MovedArranges(t, Elements(Ops(v)), Program(v, q.stamp), k);
    var base := Run(t, WithoutMoves(Program(v, q.stamp)[..k]));
    DestinationFree(base, Elements(Ops(v)), done, Run(t, Program(v, q.stamp)[..k]), o);
  }

  /** Writing a file truncates it first. Dying inside a write of the manifest leaves something there that
      lists nothing, so nothing can be rolled back; that restores the tree exactly when nothing has been
      moved: in the first write, or in the last if there was nothing to move. */
  lemma TornWrite(t: Tree, q: Request, k: nat, id: int)
    requires Cleared(t, q) && k < |Program(Checked(t, q), q.stamp)| && Program(Checked(t, q), q.stamp)[k].Write?
    requires Completes(t, Program(Checked(t, q), q.stamp)[..k])
    ensures var m := ManifestPath(q.stamp);
            var torn := Stopped(t, q, k)[m := File(Bytes(id))];
            && Rollback(torn, Listed(torn, m)) == torn
            && (k == 1 || k == |Program(Checked(t, q), q.stamp)| - 1)
            && ((forall p :: p in t && p != m ==> p in torn && torn[p] == t[p]) <==>
                k == 1 || Ops(Checked(t, q)) == [])
  {
    var v := Checked(t, q);
    ClearedOrderly(t, q);
    hide Cleared, Checked, Accepted, Movable, Orderly, Program, Moved, Run, Stopped, ManifestPath, Rollback, Listed,
        Completes;
    WritesAre(t, q, v, k);
    TornRestores(t, q, k, id);
    MovedByWrite(t, q, v, k);
  }

  lemma MovedByWrite(t: Tree, q: Request, v: Verdict, k: nat)
    requires Accepted(t, q, v) && k < |Program(v, q.stamp)| && (k == 1 || k == |Program(v, q.stamp)| - 1)
    requires Completes(t, Program(v, q.stamp)[..k])
    ensures Moved(t, Program(v, q.stamp)[..k]) == {} <==> k == 1 || Ops(v) == []
  {
    var program := Program(v, q.stamp);
    AllMoved(t, program[..k]);
    ProgramOpens(v, q.stamp);
    WritesAre(t, q, v, |program| - 1);
    ProgramMoves(v, q.stamp);
    hide Accepted, Program, Ops, Completes, Moved;
    if k == 1 {
      assert program[..1] == [program[0]];
    } else {
      assert program == program[..k] + [program[k]];
      MovesInConcat(program[..k], [program[k]]);
      assert MovesIn([program[k]]) == {};
      NoElements(Ops(v));
    }
  }

  lemma NoElements(ops: seq<Relocation>)
    ensures Elements(ops) == {} <==> ops == []
  {
    if ops != [] {
      assert ops[0] in Elements(ops);
    }
  }

  lemma TornRestores(t: Tree, q: Request, k: nat, id: int)
    requires Cleared(t, q) && k <= |Program(Checked(t, q), q.stamp)|
    ensures var m := ManifestPath(q.stamp);
            var torn := Stopped(t, q, k)[m := File(Bytes(id))];
            && Rollback(torn, Listed(torn, m)) == torn
            && ((forall p :: p in t && p != m ==> p in torn && torn[p] == t[p]) <==>
                Moved(t, Program(Checked(t, q), q.stamp)[..k]) == {})
  {
    var v, m := Checked(t, q), ManifestPath(q.stamp);
    var torn, done := Stopped(t, q, k)[m := File(Bytes(id))], Moved(t, Program(v, q.stamp)[..k]);
    ClearedOrderly(t, q);
    assert Rooted(t);
    if done == {} {
      hide Cleared, Checked, Accepted, Movable, Orderly, Rooted, Program, Moved, Run, Stopped, ManifestPath;
      forall p | p in t && p != m ensures p in torn && torn[p] == t[p] {
        CrashLosesNothing(t, q, k, p);
        PlaceNowhere(p);
      }
    } else {
      var o :| o in done;
      DoneSourceGone(t, q, v, k, o);
      OpSource(t, q, v, o);
      ManifestsClear(t, q, v, q.stamp);
    }
  }

  lemma PlaceNowhere(p: Path)
    ensures Place({}, p) == p
  {
  }

  lemma OpSource(t: Tree, q: Request, v: Verdict, o: Relocation)
    requires Accepted(t, q, v) && o in Elements(Ops(v))
    ensures o in Ops(v) && IsDir(t, o.src)
  {
  }
}
