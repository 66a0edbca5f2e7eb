/** A directory tree as a map, the three kinds of step the archive tool performs on it,
    and the crash theorem for any program of such steps: after a crash anywhere, moving
    back every entry whose destination exists leaves exactly what the same program with
    its moves struck out would have left. */
module ArchiveTree {
  import opened Common

  // A path is the list of its components below the repository root, which is [].
  type Path = seq<string>

  datatype Relocation = Relocation(src: Path, dst: Path)

  datatype Status = Planned | Applied

  datatype Content =
    | Bytes(id: int)
    | Manifest(status: Status, moves: seq<Relocation>, relabels: seq<Relocation>)

  datatype Node = Dir | File(content: Content)

  type Tree = map<Path, Node>

  predicate IsDir(t: Tree, p: Path) {
    p in t && t[p].Dir?
  }

  function Parent(p: Path): Path {
    if p == [] then [] else p[..|p| - 1]
  }

  // Everything but the root has a directory above it.
  ghost predicate Rooted(t: Tree) {
    && IsDir(t, [])
    && forall p :: p in t && p != [] ==> IsDir(t, Parent(p))
  }

  /******* Steps *******/

  datatype Step =
    | MkDirs(dir: Path)                     // mkdir(parents=True, exist_ok=True)
    | Write(path: Path, content: Content)   // write_text
    | Move(op: Relocation)                  // shutil.move of a directory, or Path.rename

  function Forward(p: Path, op: Relocation): Path {
    if op.src <= p then op.dst + p[|op.src|..] else p
  }

  function Backward(q: Path, op: Relocation): Path {
    if op.dst <= q then op.src + q[|op.dst|..] else q
  }

  function Inverse(op: Relocation): Relocation {
    Relocation(op.dst, op.src)
  }

  predicate Free(t: Tree, p: Path) {
    forall q :: q in t ==> !(p <= q)
  }

  lemma BackwardForward(p: Path, op: Relocation)
    ensures op.src <= p || !(op.dst <= p) ==> Backward(Forward(p, op), op) == p
  {
    if op.src <= p {
      assert Forward(p, op)[|op.dst|..] == p[|op.src|..];
    }
  }

  function Relocated(t: Tree, op: Relocation): (s: Tree)
    requires Free(t, op.dst)
  {
    forall p | p in t ensures Backward(Forward(p, op), op) == p { BackwardForward(p, op); }
    map p | p in t :: Forward(p, op) := t[p]
  }

  lemma RelocatedKeeps(t: Tree, op: Relocation)
    requires Free(t, op.dst)
    ensures forall p :: p in t ==> Forward(p, op) in Relocated(t, op) && Relocated(t, op)[Forward(p, op)] == t[p]
    ensures forall q :: q in Relocated(t, op) ==> exists p :: p in t && Forward(p, op) == q
  {
    forall p | p in t ensures Backward(Forward(p, op), op) == p { BackwardForward(p, op); }
  }

  function Ancestors(d: Path): set<Path> {
    set i | 0 <= i <= |d| :: d[..i]
  }

  // None is an exception: the program stops there, with the tree as it was.
  function Perform(t: Tree, step: Step): Option<Tree> {
    match step
    case MkDirs(d) =>
      if exists a :: a in Ancestors(d) && a in t && t[a].File? then None
      else Some(t + map a | a in Ancestors(d) :: Dir)
    case Write(p, c) =>
      if p == [] || !IsDir(t, Parent(p)) || IsDir(t, p) then None
      else Some(t[p := File(c)])
    case Move(op) =>
      if op.src !in t || op.dst == [] || !IsDir(t, Parent(op.dst)) || !Free(t, op.dst) || op.src <= op.dst then None
      else Some(Relocated(t, op))
  }

  /** No step leaves a node without a directory above it. */
  lemma StepKeepsRooted(t: Tree, step: Step)
    requires Rooted(t) && Perform(t, step).Some?
    ensures Rooted(Perform(t, step).value)
  {
    match step
    case MkDirs(d) =>
      MadeRooted(t, d);
    case Write(p, c) =>
    case Move(op) =>
      hide Relocated;
      MovedRooted(t, op);
  }

  lemma MadeRooted(t: Tree, d: Path)
    requires Rooted(t) && forall a :: a in Ancestors(d) && a in t ==> t[a].Dir?
    ensures Rooted(t + map a | a in Ancestors(d) :: Dir)
  {
    forall a | a in Ancestors(d) && a != [] ensures Parent(a) in Ancestors(d) {
      var i :| 0 <= i <= |d| && a == d[..i];
      assert Parent(a) == d[..i - 1];
    }
    assert d[..0] == [] && [] in Ancestors(d);
    hide Ancestors;
  }

  lemma MovedRooted(t: Tree, op: Relocation)
    requires Rooted(t) && op.dst != [] && IsDir(t, Parent(op.dst)) && Free(t, op.dst) && !(op.src <= op.dst)
    ensures Rooted(Relocated(t, op))
  {
    var s := Relocated(t, op);
    RelocatedKeeps(t, op);
    hide Relocated, Free;
    assert Forward([], op) == [];
    forall q | q in s && q != [] ensures IsDir(s, Parent(q)) {
      var p :| p in t && Forward(p, op) == q;
      hide Rooted;
      MovedParent(t, op, p);
    }
  }

  lemma MovedParent(t: Tree, op: Relocation, p: Path)
    requires Rooted(t) && op.dst != [] && IsDir(t, Parent(op.dst)) && Free(t, op.dst) && !(op.src <= op.dst)
    requires p in t && Forward(p, op) != []
    ensures IsDir(Relocated(t, op), Parent(Forward(p, op)))
  {
    RelocatedKeeps(t, op);
    hide Relocated, Free;
    if p == op.src {
      assert Forward(p, op) == op.dst && Forward(Parent(op.dst), op) == Parent(op.dst);
    } else {
      assert p != [] && IsDir(t, Parent(p));
      ParentForward(p, op);
    }
  }

  lemma ParentForward(p: Path, op: Relocation)
    requires p != op.src && p != []
    ensures Parent(Forward(p, op)) == Forward(Parent(p), op)
  {
    if op.src <= p {
      assert op.src <= Parent(p);
      assert Parent(op.dst + p[|op.src|..]) == op.dst + Parent(p)[|op.src|..];
    }
  }

  /** So every run keeps the tree a tree, wherever it dies. */
  lemma {:induction false} RunKeepsRooted(t: Tree, steps: seq<Step>)
    requires Rooted(t)
    ensures Rooted(Run(t, steps))
    decreases |steps|
  {
    if steps != [] && Perform(t, steps[0]).Some? {
      StepKeepsRooted(t, steps[0]);
      hide Rooted, Perform;
      RunKeepsRooted(Perform(t, steps[0]).value, steps[1..]);
    }
  }

  // The tree after the program has run, or stopped at the first step that failed.
  function Run(t: Tree, steps: seq<Step>): Tree
    decreases |steps|
  {
    if steps == [] then t
    else match Perform(t, steps[0])
      case None => t
      case Some(t') => Run(t', steps[1..])
  }

  function WithoutMoves(steps: seq<Step>): seq<Step> {
    if steps == [] then []
    else (if steps[0].Move? then [] else [steps[0]]) + WithoutMoves(steps[1..])
  }

  // The rollback the manifest is kept for: every entry whose destination exists is moved back.
  function Rollback(t: Tree, ops: seq<Relocation>): Tree {
    if ops == [] then t
    else
      var rest := Rollback(t, ops[1..]);
      if ops[0].dst in rest && Free(rest, ops[0].src) then Relocated(rest, Inverse(ops[0])) else rest
  }

  /******* Where each file is, once a set of moves has happened *******/

  predicate Apart(p: Path, q: Path) {
    !(p <= q) && !(q <= p)
  }

  ghost predicate Independent(ops: set<Relocation>) {
    && (forall o :: o in ops ==> Apart(o.src, o.dst))
    && (forall o, o' :: o in ops && o' in ops && o != o' ==>
          Apart(o.src, o'.src) && Apart(o.dst, o'.dst) && Apart(o.src, o'.dst))
  }

  // The current place of the file that the original tree kept at p.
  ghost function Place(done: set<Relocation>, p: Path): Path {
    if o :| o in done && o.src <= p then Forward(p, o) else p
  }

  lemma PlaceMoved(ops: set<Relocation>, done: set<Relocation>, o: Relocation, p: Path)
    requires Independent(ops) && done <= ops && o in done && o.src <= p
    ensures Place(done, p) == Forward(p, o)
  {
    forall o' | o' in done && o'.src <= p
      ensures o' == o
    {
      Comparable(o.src, o'.src, p);
    }
  }

  lemma Comparable(a: Path, b: Path, p: Path)
    requires a <= p && b <= p
    ensures a <= b || b <= a
  {
  }

  // s holds exactly the nodes of base, each at its current place.
  ghost predicate Arranged(base: Tree, done: set<Relocation>, s: Tree) {
    && (forall p :: p in base ==> Place(done, p) in s && s[Place(done, p)] == base[p])
    && (forall q :: q in s ==> exists p :: p in base && Place(done, p) == q)
  }

  // The moves in ops may run on base, in any order.
  ghost predicate Movable(base: Tree, ops: set<Relocation>) {
    && Independent(ops)
    && forall o :: o in ops ==> IsDir(base, o.src) && Free(base, o.dst) && o.dst != []
  }

  lemma PlaceOf(ops: set<Relocation>, done: set<Relocation>, p: Path, o: Relocation)
    requires Independent(ops) && done <= ops && o in ops
    ensures o in done && o.src <= p ==> Place(done, p) == Forward(p, o)
    ensures o !in done && o.src <= p ==> Place(done, p) == p
    ensures !(o.src <= p) ==> !(o.src <= Place(done, p))
    ensures !(o.dst <= p) && (o !in done || !(o.src <= p)) ==> !(o.dst <= Place(done, p))
  {
    if o' :| o' in done && o'.src <= p {
      PlaceMoved(ops, done, o', p);
      if o' != o {
        assert o'.dst <= Place(done, p);
        if o.src <= p { Comparable(o.src, o'.src, p); }
        if o.src <= Place(done, p) { Comparable(o.src, o'.dst, Place(done, p)); }
        if o.dst <= Place(done, p) { Comparable(o.dst, o'.dst, Place(done, p)); }
      } else {
        assert o.dst <= Place(done, p);
      }
    }
  }

  lemma PlaceMore(ops: set<Relocation>, done: set<Relocation>, p: Path, o: Relocation)
    requires Independent(ops) && done <= ops && o in ops && o !in done
    ensures Place(done + {o}, p) == Forward(Place(done, p), o)
  {
    PlaceOf(ops, done, p, o);
    var more := done + {o};
    if o.src <= p {
      PlaceMoved(ops, more, o, p);
    } else if o' :| o' in done && o'.src <= p {
      PlaceMoved(ops, done, o', p);
      PlaceMoved(ops, more, o', p);
    } else {
      assert forall o' :: o' in more ==> !(o'.src <= p);
      assert Place(more, p) == p;
    }
  }

  lemma PlaceLess(ops: set<Relocation>, done: set<Relocation>, p: Path, o: Relocation)
    requires Independent(ops) && done <= ops && o in done && !(o.dst <= p)
    ensures Place(done - {o}, p) == Forward(Place(done, p), Inverse(o))
  {
    var fewer := done - {o};
    assert fewer + {o} == done;
    PlaceMore(ops, fewer, p, o);
    PlaceOf(ops, fewer, p, o);
    BackwardForward(Place(fewer, p), o);
  }

  lemma RelocatedArranges(base: Tree, done: set<Relocation>, s: Tree, o: Relocation, done': set<Relocation>)
    requires Arranged(base, done, s) && Free(s, o.dst)
    requires forall p :: p in base ==> Place(done', p) == Forward(Place(done, p), o)
    ensures Arranged(base, done', Relocated(s, o))
  {
    var s' := Relocated(s, o);
    RelocatedKeeps(s, o);
    forall q | q in s' ensures exists p :: p in base && Place(done', p) == q {
      var r :| r in s && Forward(r, o) == q;
      var p :| p in base && Place(done, p) == r;
      assert Place(done', p) == q;
    }
  }

  lemma DestinationFree(base: Tree, ops: set<Relocation>, done: set<Relocation>, s: Tree, o: Relocation)
    requires Movable(base, ops) && done <= ops && o in ops && Arranged(base, done, s)
    ensures o !in done ==> Free(s, o.dst)
    ensures o in done ==> Free(s, o.src)
  {
    forall q | q in s
      ensures o !in done ==> !(o.dst <= q)
      ensures o in done ==> !(o.src <= q)
    {
      var p :| p in base && Place(done, p) == q;
      PlaceOf(ops, done, p, o);
      if o in done && o.src <= p && o.src <= q {
        Comparable(o.src, o.dst, q);
      }
    }
  }

  lemma MoveAllowed(base: Tree, ops: set<Relocation>, done: set<Relocation>, s: Tree, o: Relocation)
    requires Movable(base, ops) && done <= ops && o in ops && o !in done
    requires IsDir(base, Parent(o.dst))
    requires Arranged(base, done, s)
    ensures Free(s, o.dst) && Perform(s, Move(o)) == Some(Relocated(s, o))
  {
    DestinationFree(base, ops, done, s, o);
    PlaceOf(ops, done, o.src, o);
    assert Place(done, o.src) == o.src;
    StaysPut(ops, done, o);
    assert o.src in s && IsDir(s, Parent(o.dst));
  }

  // One more move: the arrangement depends only on which moves have happened, so they commute.
  lemma MoveArranges(base: Tree, ops: set<Relocation>, done: set<Relocation>, s: Tree, o: Relocation)
    requires Movable(base, ops) && done <= ops && o in ops && o !in done
    requires IsDir(base, Parent(o.dst))
    requires Arranged(base, done, s)
    ensures Perform(s, Move(o)).Some?
    ensures Arranged(base, done + {o}, Perform(s, Move(o)).value)
  {
    MoveAllowed(base, ops, done, s, o);
    forall p | p in base ensures Place(done + {o}, p) == Forward(Place(done, p), o) {
      PlaceMore(ops, done, p, o);
    }
    RelocatedArranges(base, done, s, o, done + {o});
  }

  lemma StaysPut(ops: set<Relocation>, done: set<Relocation>, o: Relocation)
    requires Independent(ops) && done <= ops && o in ops && o.dst != []
    ensures Place(done, Parent(o.dst)) == Parent(o.dst)
    ensures !(o.src <= Parent(o.dst))
  {
    assert Parent(o.dst) <= o.dst;
    assert forall o' :: o' in ops && o'.src <= Parent(o.dst) ==> o'.src <= o.dst;
  }

  // Moving an entry back undoes exactly that entry, whatever else has happened.
  lemma MoveBackArranges(base: Tree, ops: set<Relocation>, done: set<Relocation>, s: Tree, o: Relocation)
    requires Movable(base, ops) && done <= ops && o in ops
    requires Arranged(base, done, s)
    ensures o.dst in s <==> o in done
    ensures o in done ==> Free(s, o.src) && Arranged(base, done - {o}, Relocated(s, Inverse(o)))
  {
    DestinationFree(base, ops, done, s, o);
    if o in done {
      PlaceOf(ops, done, o.src, o);
      assert Place(done, o.src) == o.dst;
      forall p | p in base ensures Place(done - {o}, p) == Forward(Place(done, p), Inverse(o)) {
        PlaceLess(ops, done, p, o);
      }
      RelocatedArranges(base, done, s, Inverse(o), done - {o});
    }
  }

  lemma NothingDone(base: Tree, s: Tree)
    requires Arranged(base, {}, s)
    ensures s == base
  {
    forall p | p in base ensures Place({}, p) == p {}
    forall q | q in s ensures q in base {
      var p :| p in base && Place({}, p) == q;
    }
  }

  function Elements(ops: seq<Relocation>): set<Relocation> {
    set o | o in ops
  }

  lemma UndoOne(base: Tree, all: set<Relocation>, done: set<Relocation>, s: Tree, o: Relocation)
    requires Movable(base, all) && done <= all && o in all && Arranged(base, done, s)
    ensures Arranged(base, done - {o}, if o.dst in s && Free(s, o.src) then Relocated(s, Inverse(o)) else s)
  {
    hide Arranged, Movable, Rollback, Relocated;
    MoveBackArranges(base, all, done, s, o);
    if o !in done { assert done - {o} == done; }
  }

  lemma ElementsSplit(ops: seq<Relocation>)
    requires ops != []
    ensures Elements(ops) == Elements(ops[1..]) + {ops[0]}
  {
  }

  lemma {:induction false} RollbackArranges(base: Tree, all: set<Relocation>, done: set<Relocation>, s: Tree,
      ops: seq<Relocation>)
    requires Movable(base, all) && done <= all && Elements(ops) <= all && Arranged(base, done, s)
    ensures Arranged(base, done - Elements(ops), Rollback(s, ops))
  {
    hide Arranged, Movable, Relocated, Free, Inverse;
    if ops == [] {
      assert done - Elements(ops) == done;
    } else {
      ElementsSplit(ops);
      hide Elements;
      RollbackArranges(base, all, done, s, ops[1..]);
      var done' := done - Elements(ops[1..]);
      assert done - Elements(ops) == done' - {ops[0]};
      UndoOne(base, all, done', Rollback(s, ops[1..]), ops[0]);
    }
  }

  // No two files of the original tree ever share a place, so nothing is overwritten.
  lemma PlaceInjective(base: Tree, ops: set<Relocation>, done: set<Relocation>, p: Path, q: Path)
    requires Movable(base, ops) && done <= ops && p in base && q in base && p != q
    ensures Place(done, p) != Place(done, q)
  {
    if o :| o in done && o.src <= p {
      PlaceMoved(ops, done, o, p);
      PlaceOf(ops, done, q, o);
      BackwardForward(p, o);
      BackwardForward(q, o);
    } else if o :| o in done && o.src <= q {
      PlaceMoved(ops, done, o, q);
      PlaceOf(ops, done, p, o);
    }
  }

  /******* Programs *******/

  // A step that is not a move and that keeps out of every directory to be moved.
  predicate Aside(step: Step, ops: set<Relocation>) {
    match step
    case MkDirs(d) => Clear(d, ops)
    case Write(p, _) => Clear(p, ops)
    case Move(_) => false
  }

  // Each move happens once, after its destination's parent has been made.
  ghost predicate Orderly(base: Tree, ops: set<Relocation>, done: set<Relocation>, steps: seq<Step>)
    decreases |steps|
  {
    steps == [] ||
    match steps[0]
    case Move(o) =>
      o in ops && o !in done && o.dst != [] && IsDir(base, Parent(o.dst)) && Orderly(base, ops, done + {o}, steps[1..])
    case _ =>
      Aside(steps[0], ops) &&
      match Perform(base, steps[0])
      case None => true
      case Some(base') => Orderly(base', ops, done, steps[1..])
  }

  // The moves among the steps that were carried out before the program ended or failed.
  function Moved(t: Tree, steps: seq<Step>): set<Relocation>
    decreases |steps|
  {
    if steps == [] then {}
    else match Perform(t, steps[0])
      case None => {}
      case Some(t') => (if steps[0].Move? then {steps[0].op} else {}) + Moved(t', steps[1..])
  }

  predicate Clear(p: Path, ops: set<Relocation>) {
    forall o :: o in ops ==> !(o.src <= p) && !(o.dst <= p)
  }

  lemma PlaceAside(ops: set<Relocation>, done: set<Relocation>, a: Path, p: Path)
    requires done <= ops && Clear(a, ops)
    ensures Place(done, a) == a
    ensures Place(done, p) == a ==> p == a
  {
  }

  lemma LookupAside(base: Tree, ops: set<Relocation>, done: set<Relocation>, s: Tree, a: Path)
    requires done <= ops && Arranged(base, done, s) && Clear(a, ops)
    ensures a in s <==> a in base
    ensures a in s ==> s[a] == base[a]
  {
    PlaceAside(ops, done, a, a);
    if a in s {
      var p :| p in base && Place(done, p) == a;
      PlaceAside(ops, done, a, p);
    }
  }

  lemma ExtensionArranges(base: Tree, ops: set<Relocation>, done: set<Relocation>, s: Tree, more: Tree)
    requires done <= ops && Arranged(base, done, s)
    requires forall a :: a in more ==> Clear(a, ops)
    ensures Arranged(base + more, done, s + more)
  {
    var base', s' := base + more, s + more;
    forall p | p in base'
      ensures Place(done, p) in s' && s'[Place(done, p)] == base'[p]
    {
      if p in more {
        PlaceAside(ops, done, p, p);
      } else if Place(done, p) in more {
        PlaceAside(ops, done, Place(done, p), p);
      }
    }
    forall q | q in s' ensures exists p :: p in base' && Place(done, p) == q {
      if q in more {
        PlaceAside(ops, done, q, q);
      } else {
        var p :| p in base && Place(done, p) == q;
      }
    }
  }

  lemma ExtensionMovable(base: Tree, ops: set<Relocation>, more: Tree)
    requires Movable(base, ops)
    requires forall a :: a in more ==> Clear(a, ops)
    ensures Movable(base + more, ops)
  {
  }

  lemma MkDirsCommutes(base: Tree, ops: set<Relocation>, done: set<Relocation>, s: Tree, d: Path)
    requires Movable(base, ops) && done <= ops && Arranged(base, done, s) && Clear(d, ops)
    ensures Perform(base, MkDirs(d)).Some? <==> Perform(s, MkDirs(d)).Some?
    ensures Perform(base, MkDirs(d)).Some? ==>
              Movable(Perform(base, MkDirs(d)).value, ops)
                && Arranged(Perform(base, MkDirs(d)).value, done, Perform(s, MkDirs(d)).value)
  {
    hide Arranged, Movable, Clear;
    forall a | a in Ancestors(d)
      ensures Clear(a, ops) && (a in s <==> a in base) && (a in s ==> s[a] == base[a])
    {
      AncestorClear(d, a, ops);
      LookupAside(base, ops, done, s, a);
    }
    var more: Tree := map a | a in Ancestors(d) :: Dir;
    ExtensionArranges(base, ops, done, s, more);
    ExtensionMovable(base, ops, more);
  }

  lemma AncestorClear(d: Path, a: Path, ops: set<Relocation>)
    requires Clear(d, ops) && a <= d
    ensures Clear(a, ops)
  {
  }

  lemma ParentAbove(p: Path)
    requires p != []
    ensures Parent(p) <= p
  {
  }

  lemma WriteCommutes(base: Tree, ops: set<Relocation>, done: set<Relocation>, s: Tree, p: Path, c: Content)
    requires Movable(base, ops) && done <= ops && Arranged(base, done, s) && Clear(p, ops)
    ensures Perform(base, Write(p, c)).Some? <==> Perform(s, Write(p, c)).Some?
    ensures Perform(base, Write(p, c)).Some? ==>
              Movable(Perform(base, Write(p, c)).value, ops)
                && Arranged(Perform(base, Write(p, c)).value, done, Perform(s, Write(p, c)).value)
  {
    hide Arranged, Movable, Clear, Parent;
    LookupAside(base, ops, done, s, p);
    if p != [] {
      ParentAbove(p);
      AncestorClear(p, Parent(p), ops);
      LookupAside(base, ops, done, s, Parent(p));
    }
    hide Ancestors;
    var more: Tree := map[p := File(c)];
    ExtensionArranges(base, ops, done, s, more);
    ExtensionMovable(base, ops, more);
    assert base + more == base[p := File(c)] && s + more == s[p := File(c)];
  }

  lemma {:induction false} RunArranges(base: Tree, ops: set<Relocation>, done: set<Relocation>, s: Tree,
      steps: seq<Step>)
    requires Movable(base, ops) && done <= ops && Arranged(base, done, s)
    requires Orderly(base, ops, done, steps)
    ensures done + Moved(s, steps) <= ops
    ensures Movable(Run(base, WithoutMoves(steps)), ops)
    ensures Arranged(Run(base, WithoutMoves(steps)), done + Moved(s, steps), Run(s, steps))
    decreases |steps|
  {
    hide Arranged, Movable, Clear, Perform, Relocated;
    if steps == [] {
      assert done + Moved(s, steps) == done;
    } else if steps[0].Move? {
      var o := steps[0].op;
      MoveArranges(base, ops, done, s, o);
      var s' := Perform(s, steps[0]).value;
      RunArranges(base, ops, done + {o}, s', steps[1..]);
      assert done + Moved(s, steps) == (done + {o}) + Moved(s', steps[1..]);
      assert WithoutMoves(steps) == WithoutMoves(steps[1..]);
    } else {
      if steps[0].MkDirs? {
        MkDirsCommutes(base, ops, done, s, steps[0].dir);
      } else {
        WriteCommutes(base, ops, done, s, steps[0].path, steps[0].content);
      }
      BareTail(base, steps);
      if Perform(base, steps[0]).Some? {
        var base', s' := Perform(base, steps[0]).value, Perform(s, steps[0]).value;
        RunArranges(base', ops, done, s', steps[1..]);
        assert done + Moved(s, steps) == done + Moved(s', steps[1..]);
      } else {
        assert done + Moved(s, steps) == done;
      }
    }
  }

  lemma BareTail(t: Tree, steps: seq<Step>)
    requires steps != [] && !steps[0].Move?
    ensures Run(t, WithoutMoves(steps)) ==
            match Perform(t, steps[0]) case None => t case Some(t') => Run(t', WithoutMoves(steps[1..]))
  {
    hide Perform;
    assert WithoutMoves(steps)[1..] == WithoutMoves(steps[1..]);
  }

  lemma {:induction false} OrderlyPrefix(base: Tree, ops: set<Relocation>, done: set<Relocation>, steps: seq<Step>,
      k: nat)
    requires Orderly(base, ops, done, steps) && k <= |steps|
    ensures Orderly(base, ops, done, steps[..k])
    decreases k
  {
    hide Perform, Aside;
    if k > 0 {
      assert steps[..k][1..] == steps[1..][..k - 1];
      if steps[0].Move? {
        OrderlyPrefix(base, ops, done + {steps[0].op}, steps[1..], k - 1);
      } else if Perform(base, steps[0]).Some? {
        OrderlyPrefix(Perform(base, steps[0]).value, ops, done, steps[1..], k - 1);
      }
    }
  }

  lemma NothingMoved(t: Tree)
    ensures Arranged(t, {}, t)
  {
    forall p | p in t ensures Place({}, p) == p {}
  }

  /** Crash safety. The process may die before any step (k), or stop at any step that fails;
      moving back the manifest's entries then yields the tree of the same run with every move struck out. */
  lemma CrashThenRollback(t: Tree, ops: seq<Relocation>, steps: seq<Step>, k: nat)
    requires Movable(t, Elements(ops)) && Orderly(t, Elements(ops), {}, steps) && k <= |steps|
    ensures Rollback(Run(t, steps[..k]), ops) == Run(t, WithoutMoves(steps[..k]))
  {
    hide Arranged, Movable, Orderly, Run, Rollback;
    var done := MovedArranges(t, Elements(ops), steps, k);
    var base := Run(t, WithoutMoves(steps[..k]));
    RollbackArranges(base, Elements(ops), done, Run(t, steps[..k]), ops);
    assert done - Elements(ops) == {};
    NothingDone(base, Rollback(Run(t, steps[..k]), ops));
  }

  predicate Written(steps: seq<Step>, p: Path) {
    exists step :: step in steps && step.Write? && step.path == p
  }

  predicate Made(steps: seq<Step>, p: Path) {
    exists step :: step in steps && step.MkDirs? && p <= step.dir
  }

  // A run without moves changes only the files it writes, and adds only directories it was asked for.
  lemma {:induction false} BareRunAdds(t: Tree, steps: seq<Step>)
    requires forall step :: step in steps ==> !step.Move?
    ensures forall p :: p in t && !Written(steps, p) ==> p in Run(t, steps) && Run(t, steps)[p] == t[p]
    ensures forall p :: p in Run(t, steps) && p !in t ==>
              Written(steps, p) || (Made(steps, p) && Run(t, steps)[p] == Dir)
    decreases |steps|
  {
    if steps != [] {
      match Perform(t, steps[0])
      case None =>
      case Some(t') =>
        BareRunAdds(t', steps[1..]);
        forall p ensures Written(steps[1..], p) ==> Written(steps, p)
                 ensures Made(steps[1..], p) ==> Made(steps, p) {}
        assert steps[0] in steps;
    }
  }

  /** Nothing is lost: at every crash point each file and directory of the original tree, save one
      that the program itself writes, is present unchanged at its place, and no two share a place. */
  lemma NothingLost(t: Tree, ops: set<Relocation>, steps: seq<Step>, k: nat, p: Path)
    requires Movable(t, ops) && Orderly(t, ops, {}, steps) && k <= |steps|
    requires p in t && !Written(steps[..k], p)
    ensures var done := Moved(t, steps[..k]);
            var s := Run(t, steps[..k]);
            && done <= ops
            && Place(done, p) in s
            && s[Place(done, p)] == t[p]
            && forall p' :: p' in t && p' != p ==> Place(done, p') != Place(done, p)
  {
    hide Arranged, Movable, Orderly, Run, Place, Written, WithoutMoves;
    var done := MovedArranges(t, ops, steps, k);
    BareRunKeeps(t, steps[..k], p);
    ArrangedAt(Run(t, WithoutMoves(steps[..k])), done, Run(t, steps[..k]), p);
    forall p' | p' in t && p' != p ensures Place(done, p') != Place(done, p) {
      PlaceInjective(t, ops, done, p, p');
    }
  }

  lemma MovedArranges(t: Tree, ops: set<Relocation>, steps: seq<Step>, k: nat) returns (done: set<Relocation>)
    requires Movable(t, ops) && Orderly(t, ops, {}, steps) && k <= |steps|
    ensures done == Moved(t, steps[..k]) <= ops
    ensures Movable(Run(t, WithoutMoves(steps[..k])), ops)
    ensures Arranged(Run(t, WithoutMoves(steps[..k])), done, Run(t, steps[..k]))
  {
    hide Arranged, Movable, Orderly, Run;
    NothingMoved(t);
    OrderlyPrefix(t, ops, {}, steps, k);
    RunArranges(t, ops, {}, t, steps[..k]);
    done := Moved(t, steps[..k]);
    assert {} + done == done;
  }

  lemma ArrangedAt(base: Tree, done: set<Relocation>, s: Tree, p: Path)
    requires Arranged(base, done, s) && p in base
    ensures Place(done, p) in s && s[Place(done, p)] == base[p]
  {
  }

  lemma BareRunKeeps(t: Tree, steps: seq<Step>, p: Path)
    requires p in t && !Written(steps, p)
    ensures p in Run(t, WithoutMoves(steps)) && Run(t, WithoutMoves(steps))[p] == t[p]
  {
    hide Run;
    BareSteps(steps);
    BareRunAdds(t, WithoutMoves(steps));
  }

  lemma {:induction false} BareSteps(steps: seq<Step>)
    ensures forall step :: step in WithoutMoves(steps) ==> step in steps && !step.Move?
  {
    if steps != [] {
      BareSteps(steps[1..]);
    }
  }
}
