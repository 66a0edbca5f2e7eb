/** The archive run as a whole: the steps it performs, where it may die, and what holds then. */
module ArchiveMigration {
  import opened Common
  import opened ArchiveTree
  import opened ArchivePlan
  import opened ArchiveShape

  datatype Request = Request(dated: set<string>, relabelMeta: bool, stamp: string)

  function Checked(t: Tree, q: Request): Verdict {
    var plan := Plan(t, q.dated, q.relabelMeta);
    CheckPlan(t, q.stamp, plan, |plan|)
  }

  function Ops(v: Verdict): seq<Relocation> {
    v.moves + v.relabels
  }

  function ManifestPath(stamp: string): Path {
    ArchiveRoot() + ["manifest_" + stamp + ".json"]
  }

  function Record(v: Verdict, status: Status): Content {
    Manifest(status, v.moves, v.relabels)
  }

  // The first n moves, each after its destination's parent has been made.
  function MoveSteps(moves: seq<Relocation>, n: nat): seq<Step>
    requires n <= |moves|
  {
    if n == 0 then [] else MoveSteps(moves, n - 1) + [MkDirs(Parent(moves[n - 1].dst)), Move(moves[n - 1])]
  }

  function RelabelSteps(relabels: seq<Relocation>, n: nat): seq<Step>
    requires n <= |relabels|
  {
    if n == 0 then [] else RelabelSteps(relabels, n - 1) + [Move(relabels[n - 1])]
  }

  function Opening(v: Verdict, stamp: string): seq<Step> {
    [MkDirs(ArchiveRoot()), Write(ManifestPath(stamp), Record(v, Planned))]
  }

  // Everything an applied run does, in order.
  function Program(v: Verdict, stamp: string): seq<Step> {
    Opening(v, stamp) + MoveSteps(v.moves, |v.moves|) + RelabelSteps(v.relabels, |v.relabels|) +
    [Write(ManifestPath(stamp), Record(v, Applied))]
  }

  /******* The tool, changing the tree in place *******/

  datatype Outcome = Blocked | DryRun | Done | Died

  // Every step ran to its end.
  predicate Completes(t: Tree, steps: seq<Step>)
    decreases |steps|
  {
    steps == [] || match Perform(t, steps[0]) case None => false case Some(t') => Completes(t', steps[1..])
  }

  lemma {:induction false} RunAppend(t: Tree, a: seq<Step>, b: seq<Step>)
    ensures Completes(t, a) ==> Run(t, a + b) == Run(Run(t, a), b) && (Completes(t, a + b) <==> Completes(Run(t, a), b))
    ensures !Completes(t, a) ==> Run(t, a + b) == Run(t, a) && !Completes(t, a + b)
    decreases |a|
  {
    hide Perform;
    if a == [] {
      assert a + b == b;
    } else {
      assert (a + b)[1..] == a[1..] + b;
      match Perform(t, a[0])
      case None =>
      case Some(t') => RunAppend(t', a[1..], b);
    }
  }

  // Dying after n steps, or failing at step n, is what a run cut short by the lifetime comes to.
  lemma CutShort(t: Tree, program: seq<Step>, n: nat, lifetime: nat)
    requires n <= |program| && n <= lifetime && Completes(t, program[..n])
    requires n == lifetime || n == |program| || Perform(Run(t, program[..n]), program[n]).None?
    ensures Run(t, program[..if lifetime < |program| then lifetime else |program|]) == Run(t, program[..n])
    ensures n < |program| ==> !(|program| <= lifetime && Completes(t, program))
  {
    var end := if lifetime < |program| then lifetime else |program|;
    assert program[..end] == program[..n] + program[n..end];
    RunAppend(t, program[..n], program[n..end]);
    assert program == program[..n] + program[n..];
    RunAppend(t, program[..n], program[n..]);
  }

  lemma OneMore(t: Tree, steps: seq<Step>, step: Step)
    requires Completes(t, steps) && Perform(Run(t, steps), step).Some?
    ensures Completes(t, steps + [step]) && Run(t, steps + [step]) == Perform(Run(t, steps), step).value
  {
    RunAppend(t, steps, [step]);
  }

  class Workspace {
    var tree: Tree
    var lifetime: nat  // the process is killed before it could start one step more than this

    // What has happened since the tree was t and the lifetime l: these steps, to their end.
    ghost predicate Ran(t: Tree, l: nat, steps: seq<Step>)
      reads this
    {
      Completes(t, steps) && tree == Run(t, steps) && lifetime + |steps| == l
    }

    // ... and then no more, for good.
    ghost predicate Stopped(t: Tree, l: nat, program: seq<Step>)
      reads this
    {
      && tree == Run(t, program[..if l < |program| then l else |program|])
      && !(|program| <= l && Completes(t, program))
    }

    method Do(ghost t: Tree, ghost l: nat, ghost steps: seq<Step>, ghost program: seq<Step>, step: Step)
        returns (ok: bool)
      requires Ran(t, l, steps) && steps + [step] <= program
      modifies this
      ensures ok ==> Ran(t, l, steps + [step])
      ensures !ok ==> Stopped(t, l, program)
    {
      hide Perform;
      assert program[..|steps|] == steps && program[|steps|] == step;
      if lifetime == 0 {
        CutShort(t, program, |steps|, l);
        return false;
      }
      match Perform(tree, step)
      case None =>
        CutShort(t, program, |steps|, l);
        return false;
      case Some(t') =>
        OneMore(t, steps, step);
        tree, lifetime := t', lifetime - 1;
        return true;
    }

    method Archive(apply: bool, q: Request) returns (outcome: Outcome)
      modifies this
      ensures var v := Checked(old(tree), q);
              var program := Program(v, q.stamp);
              var finishes := |program| <= old(lifetime) && Completes(old(tree), program);
              && outcome == (if v.problems != [] then Blocked
                             else if !apply then DryRun
                             else if finishes then Done
                             else Died)
              && tree == (if v.problems == [] && apply
                          then Run(old(tree), program[..if old(lifetime) < |program| then old(lifetime) else |program|])
                          else old(tree))
    {
      hide Checked, Perform;
      ghost var t, l := tree, lifetime;
      var v := Check(q);
      if v.problems != [] {
        return Blocked;
      }
      if !apply {
        return DryRun;
      }
      ghost var program := Program(v, q.stamp);
      outcome := Died;
      var ok := Do(t, l, [], program, MkDirs(ArchiveRoot()));
      if !ok { return; }
      assert [] + [MkDirs(ArchiveRoot())] == [MkDirs(ArchiveRoot())];
      ok := Do(t, l, [MkDirs(ArchiveRoot())], program, Write(ManifestPath(q.stamp), Record(v, Planned)));
      if !ok { return; }
      ok := DoMoves(t, l, program, v, q.stamp);
      if !ok { return; }
      ok := DoRelabels(t, l, program, v, q.stamp);
      if !ok { return; }
      var steps := Opening(v, q.stamp) + MoveSteps(v.moves, |v.moves|) + RelabelSteps(v.relabels, |v.relabels|);
      ok := Do(t, l, steps, program, Write(ManifestPath(q.stamp), Record(v, Applied)));
      if !ok { return; }
      assert program[..|program|] == program;
      outcome := Done;
    }

    method Check(q: Request) returns (v: Verdict)
      ensures v == Checked(tree, q)
    {
      var plan := BuildPlan(tree, q.dated, q.relabelMeta);
      var problems, moves, relabels := Precheck(tree, q.stamp, plan);
      v := Verdict(problems, moves, relabels);
    }

    method DoMoves(ghost t: Tree, ghost l: nat, ghost program: seq<Step>, v: Verdict, ghost stamp: string)
        returns (ok: bool)
      requires program == Program(v, stamp) && Ran(t, l, Opening(v, stamp))
      modifies this
      ensures ok ==> Ran(t, l, Opening(v, stamp) + MoveSteps(v.moves, |v.moves|))
      ensures !ok ==> Stopped(t, l, program)
    {
      hide Opening, Program, Completes, Perform;
      ghost var steps := Opening(v, stamp);
      for i := 0 to |v.moves|
        invariant steps == Opening(v, stamp) + MoveSteps(v.moves, i)
        invariant Ran(t, l, steps)
      {
        var o := v.moves[i];
        MovesAhead(v, stamp, i);
        ok := Do(t, l, steps, program, MkDirs(Parent(o.dst)));
        if !ok { return; }
        steps := steps + [MkDirs(Parent(o.dst))];
        ok := Do(t, l, steps, program, Move(o));
        if !ok { return; }
        steps := steps + [Move(o)];
      }
      ok := true;
    }

    method DoRelabels(ghost t: Tree, ghost l: nat, ghost program: seq<Step>, v: Verdict, ghost stamp: string)
        returns (ok: bool)
      requires program == Program(v, stamp) && Ran(t, l, Opening(v, stamp) + MoveSteps(v.moves, |v.moves|))
      modifies this
      ensures ok ==> Ran(t, l, Opening(v, stamp) + MoveSteps(v.moves, |v.moves|) +
          RelabelSteps(v.relabels, |v.relabels|))
      ensures !ok ==> Stopped(t, l, program)
    {
      ghost var before := Opening(v, stamp) + MoveSteps(v.moves, |v.moves|);
      ghost var steps := before;
      for i := 0 to |v.relabels|
        invariant steps == before + RelabelSteps(v.relabels, i)
        invariant Ran(t, l, steps)
      {
        RelabelStepsPrefix(v.relabels, i + 1, |v.relabels|);
        ok := Do(t, l, steps, program, Move(v.relabels[i]));
        if !ok { return; }
        steps := steps + [Move(v.relabels[i])];
      }
      ok := true;
    }
  }

  lemma MovesAhead(v: Verdict, stamp: string, i: nat)
    requires i < |v.moves|
    ensures var steps := Opening(v, stamp) + MoveSteps(v.moves, i);
            var made, moved := MkDirs(Parent(v.moves[i].dst)), Move(v.moves[i]);
            && steps + [made] + [moved] == Opening(v, stamp) + MoveSteps(v.moves, i + 1)
            && steps + [made] + [moved] <= Program(v, stamp)
            && steps + [made] <= Program(v, stamp)
  {
    MoveStepsPrefix(v.moves, i + 1, |v.moves|);
  }

  lemma {:induction false} MoveStepsPrefix(moves: seq<Relocation>, n: nat, m: nat)
    requires n <= m <= |moves|
    ensures MoveSteps(moves, n) <= MoveSteps(moves, m)
  {
    if n < m {
      MoveStepsPrefix(moves, n, m - 1);
    }
  }

  lemma {:induction false} RelabelStepsPrefix(relabels: seq<Relocation>, n: nat, m: nat)
    requires n <= m <= |relabels|
    ensures RelabelSteps(relabels, n) <= RelabelSteps(relabels, m)
  {
    if n < m {
      RelabelStepsPrefix(relabels, n, m - 1);
    }
  }

  /******* A plan that passes is safe to carry out *******/

  lemma {:induction false} RootedAbove(t: Tree, p: Path, q: Path)
    requires Rooted(t) && q in t && p <= q
    ensures p in t
  {
    if p != q {
      assert p <= Parent(q);
      RootedAbove(t, p, Parent(q));
    }
  }

  ghost predicate Accepted(t: Tree, q: Request, v: Verdict) {
    && NoDup(Ops(v))
    && (forall o :: o in v.moves ==> IsArchiveOp(q.stamp, q.relabelMeta, o))
    && (forall o :: o in v.relabels ==> IsRelabelOp(q.relabelMeta, o))
    && (forall o :: o in Ops(v) ==> IsDir(t, o.src) && o.dst !in t)
  }

  // The verdict's operations are those of the flattened plan.
  lemma VerdictOfPlan(t: Tree, q: Request, plan: seq<Entry>)
    requires plan == Plan(t, q.dated, q.relabelMeta) && Checked(t, q).problems == []
    ensures Checked(t, q).moves == Archived(q.stamp, AllMoves(plan))
    ensures Checked(t, q).relabels == AllRelabels(plan)
    ensures forall e :: e in plan ==> Passes(t, q.stamp, e)
  {
    hide CheckPlan, Plan, Passes, AllMoves, AllRelabels, Archived;
    CheckPlanResult(t, q.stamp, plan, |plan|);
    assert plan[..|plan|] == plan;
  }

  lemma {:induction false} AllPass(t: Tree, stamp: string, plan: seq<Entry>)
    requires forall e :: e in plan ==> Passes(t, stamp, e)
    ensures forall sub :: sub in AllMoves(plan) ==> Reason(t, ArchiveOp(stamp, sub)).None?
    ensures forall op :: op in AllRelabels(plan) ==> Reason(t, op).None?
  {
    if plan != [] {
      AllPass(t, stamp, plan[..|plan| - 1]);
      assert plan[|plan| - 1] in plan;
    }
  }

  lemma ArchiveOpOfSub(stamp: string, relabelMeta: bool, sub: Path)
    requires IsSub(relabelMeta, sub)
    ensures IsArchiveOp(stamp, relabelMeta, ArchiveOp(stamp, sub))
  {
    assert (ParquetDir() + sub)[2..] == sub;
  }

  lemma ArchiveOpInjective(stamp: string, sub: Path, sub': Path)
    requires ArchiveOp(stamp, sub) == ArchiveOp(stamp, sub')
    ensures sub == sub'
  {
    assert (ParquetDir() + sub)[2..] == sub && (ParquetDir() + sub')[2..] == sub';
  }

  lemma ArchivedMoves(stamp: string, relabelMeta: bool, subs: seq<Path>)
    requires NoDup(subs) && forall sub :: sub in subs ==> IsSub(relabelMeta, sub)
    ensures NoDup(Archived(stamp, subs))
    ensures forall o :: o in Archived(stamp, subs) ==> IsArchiveOp(stamp, relabelMeta, o)
    ensures forall o :: o in Archived(stamp, subs) ==> exists sub :: sub in subs && o == ArchiveOp(stamp, sub)
  {
    hide IsSub, IsArchiveOp, ArchiveOp;
    forall i | 0 <= i < |subs| ensures IsArchiveOp(stamp, relabelMeta, ArchiveOp(stamp, subs[i])) {
      ArchiveOpOfSub(stamp, relabelMeta, subs[i]);
    }
    forall i, j | 0 <= i < j < |subs| ensures ArchiveOp(stamp, subs[i]) != ArchiveOp(stamp, subs[j]) {
      if ArchiveOp(stamp, subs[i]) == ArchiveOp(stamp, subs[j]) { ArchiveOpInjective(stamp, subs[i], subs[j]); }
    }
  }

  lemma PassingIsAccepted(t: Tree, q: Request)
    requires Checked(t, q).problems == []
    ensures Accepted(t, q, Checked(t, q))
  {
    hide Checked, Plan, IsArchiveOp, IsRelabelOp, IsSub, AllMoves, AllRelabels, Archived, Passes;
    var plan, v := Plan(t, q.dated, q.relabelMeta), Checked(t, q);
    VerdictOfPlan(t, q, plan);
    PlanShape(t, q.dated, q.relabelMeta);
    ArchivedMoves(q.stamp, q.relabelMeta, AllMoves(plan));
    PassingIsFree(t, q);
    hide ArchiveOp, NoDup;
    forall o | o in v.moves ensures o !in v.relabels {
      NotBoth(q.stamp, q.relabelMeta, o);
    }
    NoDupConcat(v.moves, v.relabels);
  }

  lemma PassingIsFree(t: Tree, q: Request)
    requires Checked(t, q).problems == []
    ensures forall o :: o in Ops(Checked(t, q)) ==> IsDir(t, o.src) && o.dst !in t
  {
    var plan, v := Plan(t, q.dated, q.relabelMeta), Checked(t, q);
    hide Checked, Plan, AllMoves, AllRelabels, Passes, Reason, ArchiveOp;
    VerdictOfPlan(t, q, plan);
    AllPass(t, q.stamp, plan);
    forall o | o in Ops(v) ensures IsDir(t, o.src) && o.dst !in t {
      if o in v.moves {
        var i :| 0 <= i < |v.moves| && v.moves[i] == o;
        assert AllMoves(plan)[i] in AllMoves(plan);
      }
      ReasonIs(t, o);
    }
  }

  lemma ReasonIs(t: Tree, o: Relocation)
    ensures Reason(t, o).None? <==> IsDir(t, o.src) && o.dst !in t
  {
  }

  lemma NotBoth(stamp: string, relabelMeta: bool, o: Relocation)
    ensures !(IsArchiveOp(stamp, relabelMeta, o) && IsRelabelOp(relabelMeta, o))
  {
    hide IsArchiveOp, IsRelabelOp;
    if IsArchiveOp(stamp, relabelMeta, o) && IsRelabelOp(relabelMeta, o) {
      MixedOpsApart(stamp, relabelMeta, o, o);
    }
  }

  lemma AcceptedIsMovable(t: Tree, q: Request, v: Verdict)
    requires Rooted(t) && Accepted(t, q, v)
    ensures Movable(t, Elements(Ops(v)))
  {
    hide IsArchiveOp, IsRelabelOp;
    PlanIndependent(q.stamp, q.relabelMeta, Elements(Ops(v)));
    forall o | o in Elements(Ops(v)) ensures Free(t, o.dst) && o.dst != [] {
      forall p | p in t ensures !(o.dst <= p) {
        if o.dst <= p { RootedAbove(t, o.dst, p); }
      }
    }
  }

  /******* The program is orderly *******/

  function MovesIn(steps: seq<Step>): set<Relocation> {
    set step | step in steps && step.Move? :: step.op
  }

  lemma {:induction false} OrderlyAppend(base: Tree, ops: set<Relocation>, done: set<Relocation>, a: seq<Step>,
      b: seq<Step>)
    requires Orderly(base, ops, done, a)
    requires Completes(base, WithoutMoves(a)) ==> Orderly(Run(base, WithoutMoves(a)), ops, done + MovesIn(a), b)
    ensures Orderly(base, ops, done, a + b)
    decreases |a|
  {
    hide Perform, Aside;
    if a == [] {
      assert a + b == b;
      assert done + MovesIn(a) == done;
    } else {
      assert (a + b)[1..] == a[1..] + b;
      assert a == [a[0]] + a[1..];
      if a[0].Move? {
        assert done + MovesIn(a) == (done + {a[0].op}) + MovesIn(a[1..]);
        assert WithoutMoves(a) == WithoutMoves(a[1..]);
        OrderlyAppend(base, ops, done + {a[0].op}, a[1..], b);
      } else {
        assert WithoutMoves(a)[1..] == WithoutMoves(a[1..]);
        assert MovesIn(a) == MovesIn(a[1..]);
        match Perform(base, a[0])
        case None =>
        case Some(base') => OrderlyAppend(base', ops, done, a[1..], b);
      }
    }
  }

  lemma {:induction false} BareRunKeepsDirs(t: Tree, steps: seq<Step>, p: Path)
    requires IsDir(t, p)
    ensures IsDir(Run(t, WithoutMoves(steps)), p)
    decreases |steps|
  {
    if steps != [] {
      if steps[0].Move? {
        assert WithoutMoves(steps) == WithoutMoves(steps[1..]);
        BareRunKeepsDirs(t, steps[1..], p);
      } else {
        BareTail(t, steps);
        match Perform(t, steps[0])
        case None =>
        case Some(t') => BareRunKeepsDirs(t', steps[1..], p);
      }
    }
  }

  lemma ParentClear(base: Tree, ops: set<Relocation>, o: Relocation)
    requires Movable(base, ops) && o in ops
    ensures Clear(Parent(o.dst), ops)
  {
    forall o' | o' in ops ensures !(o'.src <= Parent(o.dst)) && !(o'.dst <= Parent(o.dst)) {
      Above(o'.src, o.dst);
      Above(o'.dst, o.dst);
    }
  }

  lemma Above(p: Path, q: Path)
    requires q != []
    ensures p <= Parent(q) ==> p <= q && p != q
  {
    assert Parent(q) <= q;
  }

  lemma OneMoveOrderly(base: Tree, ops: set<Relocation>, done: set<Relocation>, o: Relocation)
    requires Movable(base, ops) && o in ops && o !in done
    ensures Orderly(base, ops, done, [MkDirs(Parent(o.dst)), Move(o)])
  {
    ParentClear(base, ops, o);
    var steps := [MkDirs(Parent(o.dst)), Move(o)];
    assert steps[1..] == [Move(o)] && [Move(o)][1..] == [];
    if Perform(base, steps[0]).Some? {
      var base' := Perform(base, steps[0]).value;
      assert Parent(o.dst) in Ancestors(Parent(o.dst)) by { assert Parent(o.dst)[..|Parent(o.dst)|] == Parent(o.dst); }
      assert IsDir(base', Parent(o.dst));
      assert Orderly(base', ops, done + {o}, []);
    }
  }

  lemma {:induction false} MovesInSteps(moves: seq<Relocation>, n: nat)
    requires n <= |moves|
    ensures MovesIn(MoveSteps(moves, n)) == Elements(moves[..n])
  {
    if n > 0 {
      hide MovesIn;
      MovesInSteps(moves, n - 1);
      ElementsNext(moves, n);
      MovesInConcat(MoveSteps(moves, n - 1), [MkDirs(Parent(moves[n - 1].dst)), Move(moves[n - 1])]);
      MovesInOne(MkDirs(Parent(moves[n - 1].dst)), moves[n - 1]);
    }
  }

  lemma {:induction false} MovesInRelabels(relabels: seq<Relocation>, n: nat)
    requires n <= |relabels|
    ensures MovesIn(RelabelSteps(relabels, n)) == Elements(relabels[..n])
  {
    if n > 0 {
      hide MovesIn;
      MovesInRelabels(relabels, n - 1);
      ElementsNext(relabels, n);
      MovesInConcat(RelabelSteps(relabels, n - 1), [Move(relabels[n - 1])]);
      MovesInOne(MkDirs([]), relabels[n - 1]);
    }
  }

  lemma ElementsNext(ops: seq<Relocation>, n: nat)
    requires 0 < n <= |ops|
    ensures Elements(ops[..n]) == Elements(ops[..n - 1]) + {ops[n - 1]}
  {
    assert ops[..n] == ops[..n - 1] + [ops[n - 1]];
  }

  lemma MovesInOne(other: Step, o: Relocation)
    requires !other.Move?
    ensures MovesIn([other, Move(o)]) == {o} == MovesIn([Move(o)])
  {
    assert Move(o) in [other, Move(o)] && Move(o) in [Move(o)];
  }

  lemma MovesInConcat(a: seq<Step>, b: seq<Step>)
    ensures MovesIn(a + b) == MovesIn(a) + MovesIn(b)
  {
  }

  lemma MovableThroughout(t: Tree, ops: set<Relocation>, steps: seq<Step>)
    requires Movable(t, ops) && Orderly(t, ops, {}, steps)
    ensures Movable(Run(t, WithoutMoves(steps)), ops)
  {
    hide Movable, Orderly, Run, Arranged;
    NothingMoved(t);
    RunArranges(t, ops, {}, t, steps);
  }

  // Where the manifest and the archive lie, no operation reaches.
  lemma ArchiveClear(q: Request, v: Verdict, t: Tree)
    requires Accepted(t, q, v)
    ensures Clear(ArchiveRoot(), Elements(Ops(v))) && Clear(ManifestPath(q.stamp), Elements(Ops(v)))
  {
    var root, manifest := ArchiveRoot(), ManifestPath(q.stamp);
    forall o | o in Ops(v)
      ensures !(o.src <= root) && !(o.dst <= root) && !(o.src <= manifest) && !(o.dst <= manifest)
    {
      assert |o.src| >= 3 && o.src[1] == "parquet" && |o.dst| >= 4;
      assert manifest[1] == "parquet_archive" && |manifest| == 3;
    }
  }

  lemma OpeningOrderly(t: Tree, q: Request, v: Verdict)
    requires Accepted(t, q, v)
    ensures Orderly(t, Elements(Ops(v)), {}, Opening(v, q.stamp))
  {
    ArchiveClear(q, v, t);
    hide Accepted, Clear, Perform, Ops, ArchiveRoot, ManifestPath, Record;
    var ops := Elements(Ops(v));
    var open, write := MkDirs(ArchiveRoot()), Write(ManifestPath(q.stamp), Record(v, Planned));
    WriteOrderly(t, ops, {}, write);
    assert Orderly(t, ops, {}, [open]) by { assert [open][1..] == []; }
    if Completes(t, WithoutMoves([open])) {
      WriteOrderly(Run(t, WithoutMoves([open])), ops, {} + MovesIn([open]), write);
    }
    OrderlyAppend(t, ops, {}, [open], [write]);
    assert Opening(v, q.stamp) == [open] + [write];
  }

  lemma WriteOrderly(base: Tree, ops: set<Relocation>, done: set<Relocation>, write: Step)
    requires write.Write? && Aside(write, ops)
    ensures Orderly(base, ops, done, [write])
  {
    assert [write][1..] == [];
  }

  // The moves made before the k-th operation are the operations before it.
  lemma MovedSoFar(v: Verdict, stamp: string, n: nat)
    requires n <= |v.moves|
    ensures MovesIn(Opening(v, stamp) + MoveSteps(v.moves, n)) == Elements(Ops(v)[..n])
  {
    MovesInConcat(Opening(v, stamp), MoveSteps(v.moves, n));
    assert MovesIn(Opening(v, stamp)) == {};
    MovesInSteps(v.moves, n);
    assert Ops(v)[..n] == v.moves[..n];
  }

  lemma RelabeledSoFar(v: Verdict, stamp: string, n: nat)
    requires n <= |v.relabels|
    ensures MovesIn(Opening(v, stamp) + MoveSteps(v.moves, |v.moves|) + RelabelSteps(v.relabels, n)) ==
        Elements(Ops(v)[..|v.moves| + n])
  {
    hide Opening;
    MovesInConcat(Opening(v, stamp) + MoveSteps(v.moves, |v.moves|), RelabelSteps(v.relabels, n));
    MovedSoFar(v, stamp, |v.moves|);
    MovesInRelabels(v.relabels, n);
    assert Ops(v)[..|v.moves| + n] == Ops(v)[..|v.moves|] + v.relabels[..n];
    ElementsConcat(Ops(v)[..|v.moves|], v.relabels[..n]);
  }

  lemma ElementsConcat(a: seq<Relocation>, b: seq<Relocation>)
    ensures Elements(a + b) == Elements(a) + Elements(b)
  {
  }

  lemma NotYet(ops: seq<Relocation>, k: nat)
    requires NoDup(ops) && k < |ops|
    ensures ops[k] in Elements(ops) && ops[k] !in {} + Elements(ops[..k])
  {
  }

  lemma AppendMove(t: Tree, ops: seq<Relocation>, k: nat, a: seq<Step>)
    requires NoDup(ops) && k < |ops| && Movable(t, Elements(ops))
    requires Orderly(t, Elements(ops), {}, a) && MovesIn(a) == Elements(ops[..k])
    ensures Orderly(t, Elements(ops), {}, a + [MkDirs(Parent(ops[k].dst)), Move(ops[k])])
  {
    hide *;
    MovableThroughout(t, Elements(ops), a);
    NotYet(ops, k);
    OneMoveOrderly(Run(t, WithoutMoves(a)), Elements(ops), {} + MovesIn(a), ops[k]);
    OrderlyAppend(t, Elements(ops), {}, a, [MkDirs(Parent(ops[k].dst)), Move(ops[k])]);
  }

  lemma AppendRelabel(t: Tree, ops: seq<Relocation>, k: nat, a: seq<Step>)
    requires NoDup(ops) && k < |ops| && ops[k].dst != [] && IsDir(t, Parent(ops[k].dst))
    requires Orderly(t, Elements(ops), {}, a) && MovesIn(a) == Elements(ops[..k])
    ensures Orderly(t, Elements(ops), {}, a + [Move(ops[k])])
  {
    hide *;
    BareRunKeepsDirs(t, a, Parent(ops[k].dst));
    NotYet(ops, k);
    OneRelabelOrderly(Run(t, WithoutMoves(a)), Elements(ops), {} + MovesIn(a), ops[k]);
    OrderlyAppend(t, Elements(ops), {}, a, [Move(ops[k])]);
  }

  lemma OneRelabelOrderly(base: Tree, ops: set<Relocation>, done: set<Relocation>, r: Relocation)
    requires r in ops && r !in done && r.dst != [] && IsDir(base, Parent(r.dst))
    ensures Orderly(base, ops, done, [Move(r)])
  {
    assert [Move(r)][1..] == [];
  }

  lemma {:induction false} MovesOrderly(t: Tree, q: Request, v: Verdict, n: nat)
    requires Accepted(t, q, v) && Movable(t, Elements(Ops(v))) && n <= |v.moves|
    ensures Orderly(t, Elements(Ops(v)), {}, Opening(v, q.stamp) + MoveSteps(v.moves, n))
  {
    var opening := Opening(v, q.stamp);
    hide Orderly, Movable, Opening, MovesIn, Elements, IsArchiveOp, IsRelabelOp, IsDir, NoDup;
    if n == 0 {
      OpeningOrderly(t, q, v);
      assert opening + MoveSteps(v.moves, n) == opening;
    } else {
      var a := opening + MoveSteps(v.moves, n - 1);
      MovesOrderly(t, q, v, n - 1);
      MovedSoFar(v, q.stamp, n - 1);
      AppendMove(t, Ops(v), n - 1, a);
      assert opening + MoveSteps(v.moves, n) == a + [MkDirs(Parent(v.moves[n - 1].dst)), Move(v.moves[n - 1])];
    }
  }

  lemma RelabelParent(t: Tree, q: Request, v: Verdict, r: Relocation)
    requires Rooted(t) && Accepted(t, q, v) && r in v.relabels
    ensures IsDir(t, Parent(r.dst)) && r.dst != []
  {
    hide IsMeta;
    assert r in Ops(v);
    assert Parent(r.dst) == ParquetDir() + [r.src[2]] == Parent(r.src);
  }

  lemma AcceptedOnce(t: Tree, q: Request, v: Verdict)
    requires Accepted(t, q, v)
    ensures NoDup(Ops(v))
  {
  }

  lemma RelabelStepsAre(relabels: seq<Relocation>, n: nat)
    requires n <= |relabels|
    ensures n == 0 ==> RelabelSteps(relabels, n) == []
    ensures n > 0 ==> RelabelSteps(relabels, n) == RelabelSteps(relabels, n - 1) + [Move(relabels[n - 1])]
  {
  }

  lemma Regroup(a: seq<Step>, b: seq<Step>, c: seq<Step>)
    ensures a + (b + c) == a + b + c
  {
  }

  lemma RelabelAt(v: Verdict, n: nat)
    requires 0 < n <= |v.relabels|
    ensures |Ops(v)| == |v.moves| + |v.relabels| && Ops(v)[|v.moves| + n - 1] == v.relabels[n - 1]
  {
  }

  lemma {:induction false} RelabelsOrderly(t: Tree, q: Request, v: Verdict, n: nat)
    requires Rooted(t) && Accepted(t, q, v) && Movable(t, Elements(Ops(v))) && n <= |v.relabels|
    ensures Orderly(t, Elements(Ops(v)), {}, Opening(v, q.stamp) + MoveSteps(v.moves, |v.moves|) +
        RelabelSteps(v.relabels, n))
  {
    var before := Opening(v, q.stamp) + MoveSteps(v.moves, |v.moves|);
    hide *;
    RelabelStepsAre(v.relabels, n);
    if n == 0 {
      MovesOrderly(t, q, v, |v.moves|);
      assert before + RelabelSteps(v.relabels, n) == before;
    } else {
      RelabelsOrderly(t, q, v, n - 1);
      RelabelNext(t, q, v, before + RelabelSteps(v.relabels, n - 1), n);
      Regroup(before, RelabelSteps(v.relabels, n - 1), [Move(v.relabels[n - 1])]);
    }
  }

  lemma RelabelNext(t: Tree, q: Request, v: Verdict, a: seq<Step>, n: nat)
    requires Rooted(t) && Accepted(t, q, v) && Movable(t, Elements(Ops(v))) && 0 < n <= |v.relabels|
    requires a == Opening(v, q.stamp) + MoveSteps(v.moves, |v.moves|) + RelabelSteps(v.relabels, n - 1)
    requires Orderly(t, Elements(Ops(v)), {}, a)
    ensures Orderly(t, Elements(Ops(v)), {}, a + [Move(v.relabels[n - 1])])
  {
    hide *;
    AcceptedOnce(t, q, v);
    RelabelAt(v, n);
    RelabelParent(t, q, v, v.relabels[n - 1]);
    RelabeledSoFar(v, q.stamp, n - 1);
    AppendRelabel(t, Ops(v), |v.moves| + n - 1, a);
  }

  lemma ProgramOrderly(t: Tree, q: Request, v: Verdict)
    requires Rooted(t) && Accepted(t, q, v)
    ensures Movable(t, Elements(Ops(v))) && Orderly(t, Elements(Ops(v)), {}, Program(v, q.stamp))
  {
    AcceptedIsMovable(t, q, v);
    RelabelsOrderly(t, q, v, |v.relabels|);
    ArchiveClear(q, v, t);
    hide Movable, Opening, Run, Rooted, Accepted, Clear, Ops, Perform;
    var a := Opening(v, q.stamp) + MoveSteps(v.moves, |v.moves|) + RelabelSteps(v.relabels, |v.relabels|);
    var last := Write(ManifestPath(q.stamp), Record(v, Applied));
    assert [last][1..] == [];
    OrderlyAppend(t, Elements(Ops(v)), {}, a, [last]);
  }
}
