/** The manifest is written ahead: whenever anything has been moved, it is there to roll back from. */
module ArchiveManifest {
  import opened Common
  import opened ArchiveTree
  import opened ArchivePlan
  import opened ArchiveShape
  import opened ArchiveMigration
  import opened ArchiveSafety
  import opened ArchiveRerun

  // The tree holds a manifest listing every operation of the verdict.
  ghost predicate Recorded(t: Tree, m: Path, v: Verdict) {
    m in t && (t[m] == File(Record(v, Planned)) || t[m] == File(Record(v, Applied)))
  }

  // The operations that someone reading the manifest from the tree finds listed.
  function Listed(t: Tree, m: Path): seq<Relocation> {
    if m in t && t[m].File? && t[m].content.Manifest? then t[m].content.moves + t[m].content.relabels else []
  }

  // A step that writes nothing but the manifest and moves nothing at or above its path.
  ghost predicate Careful(step: Step, m: Path, v: Verdict) {
    match step
    case MkDirs(d) => !(m <= d)
    case Write(p, c) => p == m && (c == Record(v, Planned) || c == Record(v, Applied))
    case Move(op) => !(op.src <= m) && !(op.dst <= m)
  }

  lemma CarefulStep(t: Tree, m: Path, v: Verdict, step: Step)
    requires Recorded(t, m, v) && Careful(step, m, v) && Perform(t, step).Some?
    ensures Recorded(Perform(t, step).value, m, v)
  {
    if step.Move? {
      RelocatedKeeps(t, step.op);
      assert Forward(m, step.op) == m;
    }
  }

  // Until it is written the manifest's path holds what it held.
  lemma UnwrittenStep(t: Tree, m: Path, v: Verdict, step: Step)
    requires Listed(t, m) == [] && Careful(step, m, v) && Perform(t, step).Some?
    ensures Listed(Perform(t, step).value, m) == [] || Recorded(Perform(t, step).value, m, v)
  {
    match step
    case MkDirs(d) =>
      assert m !in Ancestors(d);
    case Write(_, _) =>
    case Move(op) =>
      MoveSpares(t, op, m);
      hide Relocated, Forward;
  }

  lemma MoveSpares(t: Tree, op: Relocation, m: Path)
    requires Free(t, op.dst) && !(op.src <= m) && !(op.dst <= m)
    ensures m in t <==> m in Relocated(t, op)
    ensures m in t ==> Relocated(t, op)[m] == t[m]
  {
    RelocatedKeeps(t, op);
    hide Relocated;
    assert Forward(m, op) == m;
    if m in Relocated(t, op) {
      var p :| p in t && Forward(p, op) == m;
      assert p == m;
    }
  }

  lemma {:induction false} UnwrittenRun(t: Tree, m: Path, v: Verdict, steps: seq<Step>)
    requires Listed(t, m) == [] || Recorded(t, m, v)
    requires forall step :: step in steps ==> Careful(step, m, v)
    ensures Listed(Run(t, steps), m) == [] || Recorded(Run(t, steps), m, v)
    decreases |steps|
  {
    if Recorded(t, m, v) {
      CarefulRun(t, m, v, steps);
    } else if steps != [] && Perform(t, steps[0]).Some? {
      UnwrittenStep(t, m, v, steps[0]);
      UnwrittenRun(Perform(t, steps[0]).value, m, v, steps[1..]);
    }
  }

  lemma {:induction false} CarefulRun(t: Tree, m: Path, v: Verdict, steps: seq<Step>)
    requires Recorded(t, m, v) && forall step :: step in steps ==> Careful(step, m, v)
    ensures Recorded(Run(t, steps), m, v)
    decreases |steps|
  {
    if steps != [] && Perform(t, steps[0]).Some? {
      CarefulStep(t, m, v, steps[0]);
      CarefulRun(Perform(t, steps[0]).value, m, v, steps[1..]);
    }
  }

  // The directories made are those around the archive and below the run's own one.
  lemma {:induction false} MadeBelowStamp(t: Tree, q: Request, v: Verdict, n: nat)
    requires Accepted(t, q, v) && n <= |v.moves|
    ensures forall step :: step in MoveSteps(v.moves, n) && step.MkDirs? ==> !(ManifestPath(q.stamp) <= step.dir)
  {
    if n > 0 {
      MadeBelowStamp(t, q, v, n - 1);
      assert v.moves[n - 1] in v.moves;
      hide Accepted;
      StampedParent(q.stamp, q.relabelMeta, v.moves[n - 1]);
    }
  }

  // The parent of an archived directory is the stamp's directory or below it, not the manifest.
  lemma StampedParent(stamp: string, relabelMeta: bool, o: Relocation)
    requires IsArchiveOp(stamp, relabelMeta, o)
    ensures !(ManifestPath(stamp) <= Parent(o.dst))
  {
    assert o.dst == ArchiveRoot() + [stamp] + o.src[2..];
    assert Parent(o.dst)[2] == stamp && |ManifestPath(stamp)[2]| > |stamp|;
  }

  lemma ProgramCareful(t: Tree, q: Request, v: Verdict, step: Step)
    requires Accepted(t, q, v) && step in Program(v, q.stamp)
    ensures Careful(step, ManifestPath(q.stamp), v)
  {
    assert |ManifestPath(q.stamp)| > |ArchiveRoot()|;
    hide Accepted, ManifestPath, ArchiveRoot, Clear;
    if step.Move? {
      ProgramMoves(v, q.stamp);
      assert step.op in MovesIn(Program(v, q.stamp));
      ArchiveClear(q, v, t);
      ClearOf(ManifestPath(q.stamp), Elements(Ops(v)), step.op);
    } else {
      StepsOfMoves(t, q, v, |v.moves|);
      StepsOfRelabels(v.relabels, |v.relabels|);
      MadeBelowStamp(t, q, v, |v.moves|);
    }
  }

  lemma ClearOf(p: Path, ops: set<Relocation>, o: Relocation)
    requires Clear(p, ops) && o in ops
    ensures !(o.src <= p) && !(o.dst <= p)
  {
  }

  // Both the run and what it moves, one step at a time.
  lemma OneStep(t: Tree, steps: seq<Step>)
    requires steps != [] && !steps[0].Move?
    ensures Perform(t, steps[0]).None? ==> Moved(t, steps) == {}
    ensures Perform(t, steps[0]).Some? ==>
              Moved(t, steps) == Moved(Perform(t, steps[0]).value, steps[1..])
              && Run(t, steps) == Run(Perform(t, steps[0]).value, steps[1..])
  {
  }

  lemma WrittenFirst(t: Tree, m: Path, v: Verdict, steps: seq<Step>)
    requires |steps| > 0 ==> steps[0].MkDirs?
    requires |steps| > 1 ==> steps[1] == Write(m, Record(v, Planned))
    requires forall i :: 0 <= i < |steps| ==> Careful(steps[i], m, v)
    requires Moved(t, steps) != {}
    ensures Recorded(Run(t, steps), m, v)
  {
    hide Run, Careful, Record;
    OneStep(t, steps);
    var t1, rest := Perform(t, steps[0]).value, steps[1..];
    OneStep(t1, rest);
    var t2 := Perform(t1, rest[0]).value;
    assert Recorded(t2, m, v);
    assert rest[1..] == steps[2..];
    CarefulRun(t2, m, v, rest[1..]);
  }

  lemma ProgramOpens(v: Verdict, stamp: string)
    ensures |Program(v, stamp)| > 1
    ensures Program(v, stamp)[0] == MkDirs(ArchiveRoot())
    ensures Program(v, stamp)[1] == Write(ManifestPath(stamp), Record(v, Planned))
  {
  }

  /** Wherever the run of an accepted verdict dies, if any operation has been carried out the manifest
      is in the tree and lists every operation of the run. */
  lemma ManifestAhead(t: Tree, q: Request, v: Verdict, k: nat)
    requires Accepted(t, q, v) && k <= |Program(v, q.stamp)|
    requires Moved(t, Program(v, q.stamp)[..k]) != {}
    ensures Recorded(Run(t, Program(v, q.stamp)[..k]), ManifestPath(q.stamp), v)
  {
    var m := ManifestPath(q.stamp);
    ProgramOpens(v, q.stamp);
    hide Accepted, Program, ManifestPath, ArchiveRoot, Moved, Run, Careful;
    var steps := Program(v, q.stamp)[..k];
    forall i | 0 <= i < |steps| ensures Careful(steps[i], m, v) {
      ProgramCareful(t, q, v, steps[i]);
    }
    WrittenFirst(t, m, v, steps);
  }

  // With nothing moved, a run is the run without its moves.
  lemma NothingMovedYet(t: Tree, ops: set<Relocation>, steps: seq<Step>, k: nat)
    requires Movable(t, ops) && Orderly(t, ops, {}, steps) && k <= |steps| && Moved(t, steps[..k]) == {}
    ensures Run(t, steps[..k]) == Run(t, WithoutMoves(steps[..k]))
  {
    hide Movable, Orderly, Arranged, Run, Moved;
    var done := MovedArranges(t, ops, steps, k);
    NothingDone(Run(t, WithoutMoves(steps[..k])), Run(t, steps[..k]));
  }

  lemma ListedIfRecorded(t: Tree, m: Path, v: Verdict)
    requires Recorded(t, m, v)
    ensures Listed(t, m) == Ops(v)
  {
  }

  // What the tree lists is what CrashIsReversible rolls back, or nothing has to be.
  lemma ListedRollsBack(t: Tree, q: Request, k: nat)
    requires Cleared(t, q) && k <= |Program(Checked(t, q), q.stamp)| && Listed(t, ManifestPath(q.stamp)) == []
    ensures var s := Stopped(t, q, k);
            Rollback(s, Listed(s, ManifestPath(q.stamp))) == Rollback(s, Ops(Checked(t, q)))
  {
    var v, m := Checked(t, q), ManifestPath(q.stamp);
    var program := Program(v, q.stamp);
    ClearedOrderly(t, q);
    hide Cleared, Checked, Accepted, Movable, Orderly, Program, ManifestPath, Moved, Run, Careful, Rollback, Ops;
    forall step | step in program[..k] ensures Careful(step, m, v) {
      ProgramCareful(t, q, v, step);
    }
    UnwrittenRun(t, m, v, program[..k]);
    if !Recorded(Run(t, program[..k]), m, v) {
      if Moved(t, program[..k]) != {} {
        ManifestAhead(t, q, v, k);
      }
      hide *;
      NothingToRollBack(t, Ops(v), program, k);
    } else {
      hide *;
      ListedIfRecorded(Run(t, program[..k]), m, v);
    }
  }

  lemma NothingToRollBack(t: Tree, ops: seq<Relocation>, steps: seq<Step>, k: nat)
    requires Movable(t, Elements(ops)) && Orderly(t, Elements(ops), {}, steps) && k <= |steps|
    requires Moved(t, steps[..k]) == {}
    ensures Rollback(Run(t, steps[..k]), []) == Rollback(Run(t, steps[..k]), ops)
  {
    hide *;
    NothingMovedYet(t, Elements(ops), steps, k);
    CrashThenRollback(t, ops, steps, k);
    NoRollback(Run(t, steps[..k]));
  }

  lemma NoRollback(t: Tree)
    ensures Rollback(t, []) == t
  {
  }

  /** Crash recovery as the tool describes it. Wherever the run dies, moving back what the manifest
      found in the tree lists restores every file and directory but the manifest's own path, and leaves
      nothing new but directories around the archive, provided that nothing was listed there before. */
  lemma ManifestRestores(t: Tree, q: Request, k: nat)
    requires Cleared(t, q) && k <= |Program(Checked(t, q), q.stamp)| && Listed(t, ManifestPath(q.stamp)) == []
    ensures var s, m := Stopped(t, q, k), ManifestPath(q.stamp);
            var restored := Rollback(s, Listed(s, m));
            && (forall p :: p in t && p != m ==> p in restored && restored[p] == t[p])
            && (forall p :: p in restored && p !in t && p != m ==>
                  restored[p] == Dir && (p <= ArchiveRoot() || ArchiveRoot() <= p))
  {
    ListedRollsBack(t, q, k);
    CrashIsReversible(t, q, k);
    hide *;
  }
}
