/** Two small trees on which the archive tool falls short: one whose rollback reference is lost to a
    second run, and one whose meta history is archived with no replacement anywhere. */
module ArchiveExamples {
  import opened Common
  import opened ArchiveTree
  import opened ArchivePlan
  import opened ArchiveShape
  import opened ArchiveMigration
  import opened ArchiveSafety
  import opened ArchiveMeta
  import opened ArchiveRerun

  function Legacy(): string {
    "BTC_USDT"
  }

  // A directory with everything above it.
  function Dirs(d: Path): Tree {
    map p | p in Ancestors(d) :: Dir
  }

  // One empty legacy directory beside its suffixed replacement.
  function Plain(): Tree {
    Dirs(Partition(Legacy())) + Dirs(Partition(Legacy() + "-OKX"))
  }

  function MetaYear(): Path {
    MetaPartition("meta_funding_rate", Legacy()) + ["2024"]
  }

  // The same with one month of funding history under the legacy name.
  function WithMeta(): Tree {
    (Plain() + Dirs(MetaYear()))[MetaYear() + ["01.parquet"] := File(Bytes(0))]
  }

  // What the two have in common.
  ghost predicate Simple(t: Tree) {
    && Rooted(t)
    && (forall p :: p in t ==> InBounds(p))
    && IsDir(t, Partition(Legacy())) && IsDir(t, Partition(Legacy() + "-OKX"))
  }

  // Inside data/parquet, and below it only the legacy directory has a name of eight letters.
  predicate InBounds(p: Path) {
    && (|p| >= 2 ==> p[1] == "parquet")
    && (|p| >= 3 && |p[2]| == 8 ==> p == Partition(Legacy()))
  }

  lemma AncestorsAre(d: Path, p: Path)
    ensures p in Ancestors(d) <==> p <= d
  {
    if p <= d {
      assert p == d[..|p|];
    }
  }

  lemma DirsRooted(t: Tree, d: Path)
    requires t == map[] || Rooted(t)
    requires forall p :: p in t && p <= d ==> IsDir(t, p)
    ensures Rooted(t + Dirs(d))
  {
    AncestorsAre(d, []);
    forall p | p in t + Dirs(d) && p != [] ensures IsDir(t + Dirs(d), Parent(p)) {
      AncestorsAre(d, p);
      AncestorsAre(d, Parent(p));
    }
  }

  lemma DirsInBounds(d: Path, p: Path)
    requires p in Dirs(d) && |d| >= 3 && d[1] == "parquet" && (|d[2]| == 8 ==> d == Partition(Legacy()))
    ensures InBounds(p)
  {
    AncestorsAre(d, p);
  }

  lemma PlainPlaces()
    ensures var a, b := Partition(Legacy()), Partition(Legacy() + "-OKX");
            |a| == |b| == 3 && a[1] == b[1] == "parquet" && |b[2]| == 12
  {
  }

  lemma StaysDir(t: Tree, d: Path, p: Path)
    requires IsDir(t, p) || p <= d
    ensures IsDir(t + Dirs(d), p)
  {
    AncestorsAre(d, p);
  }

  lemma PlainIsSimple()
    ensures Simple(Plain())
  {
    PlainPlaces();
    hide Partition, Legacy, Ancestors, Dirs, Rooted, InBounds;
    var t, a, b := Plain(), Partition(Legacy()), Partition(Legacy() + "-OKX");
    NoDirs(a);
    DirsRooted(map[], a);
    forall p | p in Dirs(a) ensures IsDir(Dirs(a), p) { DirsAreDirs(a, p); }
    DirsRooted(Dirs(a), b);
    StaysDir(map[], a, a);
    StaysDir(Dirs(a), b, a);
    StaysDir(Dirs(a), b, b);
    forall p | p in t ensures InBounds(p) {
      if p in Dirs(a) { DirsInBounds(a, p); } else { DirsInBounds(b, p); }
    }
  }

  lemma NoDirs(d: Path)
    ensures map[] + Dirs(d) == Dirs(d)
  {
  }

  lemma DirsAreDirs(d: Path, p: Path)
    requires p in Dirs(d)
    ensures IsDir(Dirs(d), p)
  {
  }

  lemma MetaYearIs()
    ensures var d := MetaYear();
            |d| == 5 && d[1] == "parquet" && |d[2]| == 17 && Parent(d + ["01.parquet"]) == d
    ensures MetaYear() == MetaPartition("meta_funding_rate", Legacy()) + ["2024"]
  {
  }

  lemma MetaDirsSimple()
    ensures Simple(Plain() + Dirs(MetaYear()))
    ensures MetaYear() + ["01.parquet"] !in Plain() + Dirs(MetaYear())
  {
    var t, d := Plain() + Dirs(MetaYear()), MetaYear();
    MetaYearIs();
    PlainIsSimple();
    hide MetaYear, MetaPartition, Partition, Legacy, Ancestors, Plain;
    forall p | p in Plain() ensures IsDir(Plain(), p) { PlainDir(p); }
    DirsRooted(Plain(), d);
    forall p | p in t ensures InBounds(p) && IsDir(t, p) {
      if p in Dirs(d) { DirsInBounds(d, p); } else { PlainDir(p); }
    }
    AncestorsAre(d, d + ["01.parquet"]);
    ShortPlain(d + ["01.parquet"]);
  }

  lemma PlainDir(p: Path)
    requires p in Plain()
    ensures IsDir(Plain(), p)
  {
  }

  lemma ShortPlain(p: Path)
    requires |p| > 3
    ensures p !in Plain()
  {
    var a, b := Partition(Legacy()), Partition(Legacy() + "-OKX");
    assert |a| == |b| == 3;
    hide Partition, Ancestors, Legacy;
    AncestorsAre(a, p);
    AncestorsAre(b, p);
  }

  lemma WithMetaIsSimple()
    ensures Simple(WithMeta())
    ensures IsDir(WithMeta(), MetaYear()) && IsDir(WithMeta(), MetaPartition("meta_funding_rate", Legacy()))
    ensures MetaYear() + ["01.parquet"] in WithMeta()
  {
    MetaYearIs();
    MetaDirsSimple();
    hide MetaYear, MetaPartition, Partition, Legacy, Ancestors, Plain, Dirs, Rooted;
    var t, d := Plain() + Dirs(MetaYear()), MetaYear();
    var file := d + ["01.parquet"];
    StaysDir(Plain(), d, d);
    StaysDir(Plain(), d, MetaPartition("meta_funding_rate", Legacy()));
    FileRooted(t, file);
    assert InBounds(file);
    hide InBounds;
    assert forall p :: IsDir(t, p) ==> IsDir(WithMeta(), p);
  }

  lemma FileRooted(t: Tree, file: Path)
    requires Rooted(t) && file != [] && IsDir(t, Parent(file)) && !IsDir(t, file)
    ensures Rooted(t[file := File(Bytes(0))])
  {
  }

  lemma OnlyLegacy(t: Tree, target: string)
    requires Simple(t) && IsTarget(target) && IsDir(t, Partition(target))
    ensures target == Legacy()
  {
    TargetLength(target);
    assert Partition(target)[2] == target && Partition(Legacy())[2] == Legacy();
  }

  lemma NoMonths(t: Tree)
    requires Simple(t)
    ensures CoveredMonths(t, Partition(Legacy())) == {}
  {
    var dir := Partition(Legacy());
    forall p | p in t ensures !IsMonthFile(t, dir, p) {
      assert InBounds(p) && |dir| == 3 && |dir[2]| == 8;
      assert dir <= p ==> p[..3] == dir;
    }
  }

  lemma LegacyReplaced(t: Tree, dated: set<string>)
    requires Simple(t) && Legacy() + "-OKX" in dated
    ensures Replacement(t, dated, Legacy()).Some?
  {
    NoMonths(t);
    assert SUFFIXES[0] == "-OKX" && Replaces(t, dated, Legacy(), Legacy() + SUFFIXES[0]);
  }

  lemma SimpleEntry(t: Tree, q: Request, e: Entry)
    requires Simple(t) && Legacy() + "-OKX" in q.dated && !q.relabelMeta && e in Plan(t, q.dated, q.relabelMeta)
    ensures e.replacement.Some?
  {
    hide Replacement, MetaMoves, Legacy, Partition, Simple, LegacyTargets;
    EntriesAre(t, q.dated, q.relabelMeta, |LegacyTargets()|, e);
    var target :| IsTarget(target) && IsDir(t, Partition(target))
        && e == TargetEntry(t, q.dated, q.relabelMeta, target);
    OnlyLegacy(t, target);
    LegacyReplaced(t, q.dated);
  }

  lemma NotArchived(t: Tree, stamp: string, sub: Path)
    requires Simple(t)
    ensures ArchiveOp(stamp, sub).dst !in t
  {
    var dst := ArchiveOp(stamp, sub).dst;
    assert dst[1] == "parquet_archive" && |dst| >= 2;
    assert dst in t ==> InBounds(dst);
  }

  lemma SimpleCleared(t: Tree, q: Request)
    requires Simple(t) && Legacy() + "-OKX" in q.dated && !q.relabelMeta
    ensures Cleared(t, q)
  {
    assert Rooted(t);
    hide Simple, Plan, Checked, Rooted, ArchiveOp, Legacy;
    var plan := Plan(t, q.dated, q.relabelMeta);
    forall e | e in plan
      ensures e.replacement.Some? && forall sub :: sub in e.moves ==> ArchiveOp(q.stamp, sub).dst !in t
    {
      SimpleEntry(t, q, e);
      forall sub ensures ArchiveOp(q.stamp, sub).dst !in t {
        NotArchived(t, q.stamp, sub);
      }
    }
    BlockedExactly(t, q);
  }

  /******* A lost rollback reference *******/

  lemma PlainMove(q: Request, v: Verdict, o: Relocation)
    requires Accepted(Plain(), q, v) && o in v.moves
    ensures o == ArchiveOp(q.stamp, [Legacy()])
  {
    PlainIsSimple();
    var sub := o.src[2..];
    assert IsArchiveOp(q.stamp, q.relabelMeta, o) && IsDir(Plain(), o.src) && o.src == ParquetDir() + sub;
    assert |o.src| == |sub| + 2;
    hide Plain, Simple, Legacy, Accepted;
    if |sub| == 1 {
      assert Partition(sub[0]) == o.src;
      OnlyLegacy(Plain(), sub[0]);
      assert sub == [Legacy()];
    } else {
      ShortPlain(o.src);
    }
  }

  // A plain tree's one move, and nothing relabelled.
  lemma PlainMoves(q: Request)
    requires Legacy() + "-OKX" in q.dated && !q.relabelMeta
    ensures Cleared(Plain(), q)
    ensures Checked(Plain(), q) == Verdict([], [ArchiveOp(q.stamp, [Legacy()])], [])
  {
    var t, v, op := Plain(), Checked(Plain(), q), ArchiveOp(q.stamp, [Legacy()]);
    PlainIsSimple();
    SimpleCleared(t, q);
    assert IsTarget(Legacy()) && v.problems == [] && IsDir(t, Partition(Legacy()));
    PassingIsAccepted(t, q);
    hide Checked, ArchiveOp, Plain, Simple, Legacy, IsTarget, IsArchiveOp;
    TargetCleared(t, q, Legacy());
    forall o | o in v.moves ensures o == op {
      PlainMove(q, v, o);
    }
    OnlyOne(v.moves, v.relabels, op);
    NoRelabels(t, q, v);
  }

  lemma NoRelabels(t: Tree, q: Request, v: Verdict)
    requires Accepted(t, q, v) && !q.relabelMeta
    ensures v.relabels == []
  {
    if v.relabels != [] {
      OnlyWhenAsked(t, q, v, v.relabels[0]);
    }
  }

  lemma OnlyWhenAsked(t: Tree, q: Request, v: Verdict, o: Relocation)
    requires Accepted(t, q, v) && o in v.relabels
    ensures q.relabelMeta
  {
  }

  lemma TwoDiffer(moves: seq<Relocation>, more: seq<Relocation>, i: nat, j: nat)
    requires NoDup(moves + more) && i < j < |moves|
    ensures moves[i] != moves[j] && moves[i] in moves && moves[j] in moves
  {
    assert (moves + more)[i] == moves[i] && (moves + more)[j] == moves[j];
  }

  lemma OnlyOne(moves: seq<Relocation>, more: seq<Relocation>, op: Relocation)
    requires op in moves && (forall o :: o in moves ==> o == op) && NoDup(moves + more)
    ensures moves == [op]
  {
    if |moves| > 1 {
      TwoDiffer(moves, more, 0, 1);
    }
  }

  /******* The plain tree's run, step by step *******/

  lemma MkDirsIs(t: Tree, d: Path)
    requires forall a :: a in t && a <= d ==> IsDir(t, a)
    ensures Perform(t, MkDirs(d)) == Some(t + Dirs(d))
  {
    forall a | a in Ancestors(d) ensures a <= d {
      AncestorsAre(d, a);
    }
  }

  lemma RunTwo(t: Tree, a: Step, b: Step, t': Tree, t'': Tree)
    requires Perform(t, a) == Some(t') && Perform(t', b) == Some(t'')
    ensures Completes(t, [a, b]) && Run(t, [a, b]) == t''
  {
    hide Perform;
    assert Completes(t'', []) && Run(t'', []) == t'';
    assert [a, b][1..] == [b] && [b][1..] == [];
    assert Completes(t', [b]) && Run(t', [b]) == t'';
  }

  // The tree once the manifest is written.
  ghost predicate Opened(t: Tree, stamp: string) {
    && (forall p :: p in t && |p| >= 2 && p[1] != "parquet" ==> p == ArchiveRoot() || p == ManifestPath(stamp))
    && IsDir(t, []) && IsDir(t, ["data"]) && IsDir(t, ArchiveRoot()) && IsDir(t, Partition(Legacy()))
    && ManifestPath(stamp) in t && t[ManifestPath(stamp)].File?
  }

  lemma Places(stamp: string)
    ensures var root, m := ArchiveRoot(), ManifestPath(stamp);
            && |root| == 2 && root[1] == "parquet_archive" && root[..1] == ["data"] && root[..0] == []
            && |m| == 3 && m[..2] == root && Parent(m) == root
    ensures var op := ArchiveOp(stamp, [Legacy()]);
            && op.src == Partition(Legacy()) && |op.src| == 3 && op.src[1] == "parquet"
            && |op.dst| == 4 && op.dst[1] == "parquet_archive" && Parent(op.dst) == ArchiveRoot() + [stamp]
  {
  }

  lemma InData(t: Tree)
    requires Simple(t)
    ensures IsDir(t, []) && IsDir(t, ["data"])
  {
    var legacy := Partition(Legacy());
    assert Parent(legacy) == ["data", "parquet"] && Parent(["data", "parquet"]) == ["data"] && Parent(["data"]) == [];
    hide Partition, Legacy;
    assert IsDir(t, ["data", "parquet"]);
  }

  lemma RootMade(t: Tree)
    requires Simple(t)
    ensures Perform(t, MkDirs(ArchiveRoot())) == Some(t + Dirs(ArchiveRoot()))
  {
    var root := ArchiveRoot();
    InData(t);
    Places("");
    hide Legacy, Partition;
    forall a | a in t && a <= root ensures IsDir(t, a) {
      assert InBounds(a);
      assert a == root[..|a|];
    }
    MkDirsIs(t, root);
  }

  lemma RootPlaces(t: Tree, stamp: string)
    requires Simple(t)
    ensures IsDir(t + Dirs(ArchiveRoot()), ArchiveRoot()) && ManifestPath(stamp) !in t + Dirs(ArchiveRoot())
    ensures forall p :: p in t + Dirs(ArchiveRoot()) && |p| >= 2 && p[1] != "parquet" ==> p == ArchiveRoot()
  {
    var root, m := ArchiveRoot(), ManifestPath(stamp);
    Places(stamp);
    hide Legacy, Partition, ArchiveRoot, ManifestPath;
    AncestorsAre(root, root);
    AncestorsAre(root, m);
    assert m[1] == root[1];
    assert m in t ==> InBounds(m);
    forall p | p in t + Dirs(root) && |p| >= 2 && p[1] != "parquet" ensures p == root {
      AncestorsAre(root, p);
      assert p in t ==> InBounds(p);
    }
  }

  lemma OpenedAfter(t: Tree, stamp: string, c: Content)
    requires Simple(t)
    ensures Opened((t + Dirs(ArchiveRoot()))[ManifestPath(stamp) := File(c)], stamp)
  {
    RootPlaces(t, stamp);
    InData(t);
    assert IsDir(t, Partition(Legacy()));
    hide Legacy, Partition, ArchiveRoot, ManifestPath, Dirs, Simple;
    StaysDir(t, ArchiveRoot(), []);
    StaysDir(t, ArchiveRoot(), ["data"]);
    StaysDir(t, ArchiveRoot(), Partition(Legacy()));
    hide IsDir;
    WrittenIn(t + Dirs(ArchiveRoot()), stamp, c);
  }

  lemma WrittenIn(t: Tree, stamp: string, c: Content)
    requires IsDir(t, []) && IsDir(t, ["data"]) && IsDir(t, ArchiveRoot()) && IsDir(t, Partition(Legacy()))
    requires ManifestPath(stamp) !in t
    requires forall p :: p in t && |p| >= 2 && p[1] != "parquet" ==> p == ArchiveRoot()
    ensures Opened(t[ManifestPath(stamp) := File(c)], stamp)
  {
    hide Legacy, Partition, ArchiveRoot, ManifestPath;
  }

  lemma OpeningCompletes(t: Tree, q: Request, v: Verdict)
    requires Simple(t)
    ensures var opening := [MkDirs(ArchiveRoot()), Write(ManifestPath(q.stamp), Record(v, Planned))];
            Completes(t, opening) && Opened(Run(t, opening), q.stamp)
  {
    var root, m, made := ArchiveRoot(), ManifestPath(q.stamp), t + Dirs(ArchiveRoot());
    RootMade(t);
    RootPlaces(t, q.stamp);
    Places(q.stamp);
    OpenedAfter(t, q.stamp, Record(v, Planned));
    hide Legacy, Partition, ArchiveRoot, ManifestPath, Record, Run, Completes, Dirs, Opened, Simple;
    var written := made[m := File(Record(v, Planned))];
    assert Perform(made, Write(m, Record(v, Planned))) == Some(written);
    RunTwo(t, MkDirs(root), Write(m, Record(v, Planned)), made, written);
  }

  lemma StampMade(t: Tree, stamp: string)
    requires Opened(t, stamp)
    ensures ArchiveRoot() + [stamp] !in t
    ensures Perform(t, MkDirs(ArchiveRoot() + [stamp])) == Some(t + Dirs(ArchiveRoot() + [stamp]))
  {
    var root, m := ArchiveRoot(), ManifestPath(stamp);
    var d := root + [stamp];
    Places(stamp);
    assert |m[2]| > |stamp|;
    hide Legacy, Partition, ArchiveRoot, ManifestPath;
    forall a | a in t && a <= d ensures IsDir(t, a) {
      assert a == d[..|a|];
      assert d[1] == root[1] && d[..2] == root && d[..1] == root[..1];
    }
    MkDirsIs(t, d);
  }

  lemma MovingCompletes(t: Tree, stamp: string, op: Relocation)
    requires Opened(t, stamp) && op == ArchiveOp(stamp, [Legacy()])
    ensures var moving := [MkDirs(Parent(op.dst)), Move(op)];
            && Completes(t, moving)
            && IsDir(Run(t, moving), ArchiveRoot()) && !IsDir(Run(t, moving), ManifestPath(stamp))
  {
    var root, m, d := ArchiveRoot(), ManifestPath(stamp), Parent(op.dst);
    Places(stamp);
    StampMade(t, stamp);
    hide Legacy, ArchiveRoot, ManifestPath, ArchiveOp, Run, Completes, Relocated;
    var made := t + Dirs(d);
    StampTaken(t, stamp, made, op);
    RelocatedKeeps(made, op);
    assert Forward(root, op) == root && Forward(m, op) == m;
    RunTwo(t, MkDirs(d), Move(op), made, Relocated(made, op));
  }

  // The move of the legacy directory under the stamp's directory can go ahead.
  lemma StampTaken(t: Tree, stamp: string, made: Tree, op: Relocation)
    requires Opened(t, stamp) && op == ArchiveOp(stamp, [Legacy()]) && made == t + Dirs(Parent(op.dst))
    ensures var root, m := ArchiveRoot(), ManifestPath(stamp);
            && !(op.src <= op.dst) && !(op.src <= root) && !(op.src <= m)
            && IsDir(made, root) && m in made && !IsDir(made, m)
    ensures Free(made, op.dst) && Perform(made, Move(op)) == Some(Relocated(made, op))
  {
    var root, m, d := ArchiveRoot(), ManifestPath(stamp), Parent(op.dst);
    Places(stamp);
    StampMade(t, stamp);
    hide Legacy, ArchiveRoot, ManifestPath, ArchiveOp;
    AncestorsAre(d, d);
    AncestorsAre(d, m);
    AncestorsAre(d, root);
    forall p | p in made ensures !(op.dst <= p) {
      AncestorsAre(d, p);
    }
    assert !(op.src <= op.dst) && !(op.src <= root) && !(op.src <= m) && op.src in made;
    hide Relocated;
    assert op.dst != [] && IsDir(made, d) && Free(made, op.dst);
    assert made[root] == Dir && made[m] == t[m];
  }

  lemma LastWrite(t: Tree, stamp: string, v: Verdict)
    requires IsDir(t, ArchiveRoot()) && !IsDir(t, ManifestPath(stamp))
    ensures Completes(t, [Write(ManifestPath(stamp), Record(v, Applied))])
  {
    Places(stamp);
  }

  lemma ProgramOfOne(v: Verdict, stamp: string, op: Relocation)
    requires v == Verdict([], [op], [])
    ensures Program(v, stamp) ==
            [MkDirs(ArchiveRoot()), Write(ManifestPath(stamp), Record(v, Planned))] +
            [MkDirs(Parent(op.dst)), Move(op)] + [Write(ManifestPath(stamp), Record(v, Applied))]
  {
    assert MoveSteps(v.moves, 1) == MoveSteps(v.moves, 0) + [MkDirs(Parent(op.dst)), Move(op)];
  }

  lemma OneMoveCompletes(t: Tree, q: Request, v: Verdict, op: Relocation)
    requires Simple(t) && v == Verdict([], [op], []) && op == ArchiveOp(q.stamp, [Legacy()])
    ensures Completes(t, Program(v, q.stamp))
  {
    var opening := [MkDirs(ArchiveRoot()), Write(ManifestPath(q.stamp), Record(v, Planned))];
    var moving, closing := [MkDirs(Parent(op.dst)), Move(op)], [Write(ManifestPath(q.stamp), Record(v, Applied))];
    ProgramOfOne(v, q.stamp, op);
    OpeningCompletes(t, q, v);
    MovingCompletes(Run(t, opening), q.stamp, op);
    LastWrite(Run(Run(t, opening), moving), q.stamp, v);
    hide Run, Completes, ArchiveRoot, ManifestPath, ArchiveOp, Parent, Legacy, Simple;
    RunAppend(t, opening, moving);
    RunAppend(t, opening + moving, closing);
  }

  /******* What goes wrong on them *******/

  /** A plain tree's run moves a directory and finishes; a second run within the same second leaves no
      trace of that move in the manifest. */
  lemma PlainLosesItsRecord(q: Request)
    requires Legacy() + "-OKX" in q.dated && !q.relabelMeta
    ensures Cleared(Plain(), q) && Completes(Plain(), Program(Checked(Plain(), q), q.stamp))
    ensures var s, m := Run(Plain(), Program(Checked(Plain(), q), q.stamp)), ManifestPath(q.stamp);
            var s' := Run(s, Program(Checked(s, q), q.stamp));
            && m in s && s[m] == File(Manifest(Applied, [ArchiveOp(q.stamp, [Legacy()])], []))
            && m in s' && s'[m] == File(Manifest(Applied, [], []))
  {
    PlainMoves(q);
    PlainIsSimple();
    OneMoveCompletes(Plain(), q, Checked(Plain(), q), ArchiveOp(q.stamp, [Legacy()]));
    hide Run, Completes, Program, Checked, Cleared, ManifestPath, ArchiveOp, Plain, Legacy;
    RerunWrites(Plain(), q, q);
  }

  /** The run of the second tree archives its funding history, whose month no suffixed partition has at
      any point of the run. */
  lemma MetaHistoryUnreplaced(q: Request, k: nat, suffix: string)
    requires Legacy() + "-OKX" in q.dated && !q.relabelMeta && suffix in SUFFIXES
    requires k <= |Program(Checked(WithMeta(), q), q.stamp)|
    ensures var t, dir := WithMeta(), MetaPartition("meta_funding_rate", Legacy());
            && Cleared(t, q)
            && ArchiveOp(q.stamp, ["meta_funding_rate", Legacy()]) in Checked(t, q).moves
            && CoveredMonths(t, dir) != {}
            && !(CoveredMonths(t, dir) <=
                 CoveredMonths(Stopped(t, q, k), MetaPartition("meta_funding_rate", Legacy() + suffix)))
  {
    var t, meta := WithMeta(), "meta_funding_rate";
    WithMetaIsSimple();
    SimpleCleared(t, q);
    assert IsMeta(meta) && IsTarget(Legacy()) && IsDir(t, Partition(Legacy())) by { assert MetaDirs()[0] == meta; }
    hide Simple, WithMeta, Checked, Program, Stopped, CoveredMonths, Legacy, Partition, MetaPartition, IsMeta, IsTarget;
    MetaArchived(t, q, meta, Legacy());
    MetaMonth();
    NoSuffixedMeta(suffix);
    MetaCoverage(t, q, k, meta, Legacy(), suffix);
  }

  lemma OneMonth(t: Tree, dir: Path, y: Path, p: Path)
    requires IsYear(t, dir, y) && IsMonth(y, p) && p in t
    ensures CoveredMonths(t, dir) != {}
  {
    assert Parent(p) == y && IsMonthFile(t, dir, p);
    assert MonthOf(t, dir, p) in CoveredMonths(t, dir);
  }

  lemma Literals()
    ensures IsDigits("2024") && IsParquet("01.parquet") && Stem("01.parquet") == "01" && IsDigits("01")
  {
  }

  lemma MetaMonth()
    ensures CoveredMonths(WithMeta(), MetaPartition("meta_funding_rate", Legacy())) != {}
  {
    hide WithMeta, MetaYear, MetaPartition, Legacy, CoveredMonths, IsDigits, Stem, IsParquet, Simple;
    var t, dir, y := WithMeta(), MetaPartition("meta_funding_rate", Legacy()), MetaYear();
    WithMetaIsSimple();
    MetaYearIs();
    Literals();
    assert y[|dir|] == "2024" && (y + ["01.parquet"])[|y|] == "01.parquet";
    OneMonth(t, dir, y, y + ["01.parquet"]);
  }

  lemma NoSuffixedMeta(suffix: string)
    requires suffix in SUFFIXES
    ensures CoveredMonths(WithMeta(), MetaPartition("meta_funding_rate", Legacy() + suffix)) == {}
  {
    var t, dir, d := WithMeta(), MetaPartition("meta_funding_rate", Legacy() + suffix), MetaYear();
    assert |dir| == 4 && |dir[3]| > 8 && |d| == 5 && |d[3]| == 8;
    hide MetaPartition, MetaYear, Legacy, Plain, Ancestors;
    forall p | p in t ensures !IsMonthFile(t, dir, p) {
      if |p| == 6 {
        ShortPlain(p);
        AncestorsAre(d, p);
        assert p == d + ["01.parquet"] && p[3] == d[3];
      }
    }
  }
}
