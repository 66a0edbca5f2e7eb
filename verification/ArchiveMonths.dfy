/** The coverage gate and the archived places in terms of file names: which months count as the same, what
    lets a partition replace a legacy directory, and where a finished run leaves every file. */
module ArchiveMonths {
  import opened Common
  import opened ArchiveTree
  import opened ArchivePlan
  import opened ArchiveShape
  import opened ArchiveMigration
  import opened ArchiveSafety
  import opened ArchiveRerun
  import opened ArchiveMeta

  /******* When two names are the same number *******/

  // A number as written, without its leading zeros.
  function Stripped(s: string): string {
    if s != "" && s[0] == '0' then Stripped(s[1..]) else s
  }

  ghost predicate Decimal(s: string) {
    forall i :: 0 <= i < |s| ==> '0' <= s[i] <= '9'
  }

  lemma {:induction false} LeadingZero(s: string)
    requires Decimal(s) && s != "" && s[0] == '0'
    ensures Number(s[1..]) == Number(s)
  {
    if |s| > 1 {
      LeadingZero(s[..|s| - 1]);
      assert s[1..][..|s| - 2] == s[..|s| - 1][1..];
    }
  }

  lemma {:induction false} NumberStripped(s: string)
    requires Decimal(s)
    ensures Decimal(Stripped(s)) && Number(Stripped(s)) == Number(s)
    ensures Stripped(s) != "" ==> Stripped(s)[0] != '0'
  {
    if s != "" && s[0] == '0' {
      LeadingZero(s);
      NumberStripped(s[1..]);
    }
  }

  lemma {:induction false} LedIsPositive(s: string)
    requires Decimal(s) && s != "" && s[0] != '0'
    ensures Number(s) > 0
  {
    if |s| > 1 {
      LedIsPositive(s[..|s| - 1]);
    }
  }

  lemma {:induction false} LedIsUnique(a: string, b: string)
    requires Decimal(a) && (a != "" ==> a[0] != '0')
    requires Decimal(b) && (b != "" ==> b[0] != '0')
    requires Number(a) == Number(b)
    ensures a == b
  {
    if a == "" || b == "" {
      if a != "" { LedIsPositive(a); }
      if b != "" { LedIsPositive(b); }
    } else {
      var x, y := a[..|a| - 1], b[..|b| - 1];
      assert Number(x) == Number(y);
      LedIsUnique(x, y);
      assert a == x + [a[|a| - 1]] && b == y + [b[|b| - 1]];
    }
  }

  /** Two strings of digits are the same number exactly when they agree but for leading zeros. */
  lemma SameNumber(a: string, b: string)
    requires forall i :: 0 <= i < |a| ==> '0' <= a[i] <= '9'
    requires forall i :: 0 <= i < |b| ==> '0' <= b[i] <= '9'
    ensures Number(a) == Number(b) <==> Stripped(a) == Stripped(b)
  {
    NumberStripped(a);
    NumberStripped(b);
    if Number(a) == Number(b) {
      LedIsUnique(Stripped(a), Stripped(b));
    }
  }

  /******* The gate on file names *******/

  // dir/y/m.parquet is there, y is a directory, and both names are made of digits.
  ghost predicate MonthFile(t: Tree, dir: Path, y: string, m: string) {
    && dir + [y] in t && t[dir + [y]] == Dir && dir + [y, m + ".parquet"] in t
    && y != "" && (forall i :: 0 <= i < |y| ==> '0' <= y[i] <= '9')
    && m != "" && (forall i :: 0 <= i < |m| ==> '0' <= m[i] <= '9')
  }

  lemma StemOf(m: string)
    ensures IsParquet(m + ".parquet") && Stem(m + ".parquet") == m
  {
  }

  lemma MonthFileIs(t: Tree, dir: Path, y: string, m: string)
    ensures var p := dir + [y, m + ".parquet"];
            && (MonthFile(t, dir, y, m) <==> p in t && IsMonthFile(t, dir, p))
            && (MonthFile(t, dir, y, m) ==> MonthOf(t, dir, p) == (Number(y), Number(m)))
  {
    var p := dir + [y, m + ".parquet"];
    assert Parent(p) == dir + [y] && p[|dir|] == y && p[|dir| + 1] == m + ".parquet";
    StemOf(m);
    hide Stem, IsParquet, Number;
  }

  lemma MonthNames(t: Tree, dir: Path, p: Path) returns (y: string, m: string)
    requires p in t && IsMonthFile(t, dir, p)
    ensures p == dir + [y, m + ".parquet"] && MonthFile(t, dir, y, m) && MonthOf(t, dir, p) == (Number(y), Number(m))
  {
    y, m := p[|dir|], Stem(p[|dir| + 1]);
    assert dir <= Parent(p) && Parent(p) <= p && p[..|dir|] == dir;
    assert p == dir + [p[|dir|], p[|dir| + 1]] && p[|dir| + 1] == m + ".parquet";
    hide Stem, IsParquet, IsYear, IsMonth, IsMonthFile, Number;
    MonthFileIs(t, dir, y, m);
  }

  // Some file of the partition is for the same month.
  ghost predicate HasMonth(t: Tree, dir: Path, y: string, m: string) {
    exists y', m' :: MonthFile(t, dir, y', m') && Stripped(y') == Stripped(y) && Stripped(m') == Stripped(m)
  }

  lemma MonthCovered(t: Tree, dir: Path, y: string, m: string)
    requires y != "" && (forall i :: 0 <= i < |y| ==> '0' <= y[i] <= '9')
    requires m != "" && (forall i :: 0 <= i < |m| ==> '0' <= m[i] <= '9')
    ensures (Number(y), Number(m)) in CoveredMonths(t, dir) <==> HasMonth(t, dir, y, m)
  {
    if (Number(y), Number(m)) in CoveredMonths(t, dir) {
      var p :| p in t && IsMonthFile(t, dir, p) && MonthOf(t, dir, p) == (Number(y), Number(m));
      hide *;
      var y', m' := MonthNames(t, dir, p);
      FileDigits(t, dir, y', m');
      SameNumber(y', y);
      SameNumber(m', m);
      HasIt(t, dir, y, m, y', m');
    }
    if HasMonth(t, dir, y, m) {
      var y', m' :| MonthFile(t, dir, y', m') && Stripped(y') == Stripped(y) && Stripped(m') == Stripped(m);
      FileDigits(t, dir, y', m');
      hide *;
      SameNumber(y', y);
      SameNumber(m', m);
      MonthFileIs(t, dir, y', m');
      MonthCounts(t, dir, dir + [y', m' + ".parquet"]);
    }
  }

  lemma FileDigits(t: Tree, dir: Path, y: string, m: string)
    requires MonthFile(t, dir, y, m)
    ensures y != "" && forall i :: 0 <= i < |y| ==> '0' <= y[i] <= '9'
    ensures m != "" && forall i :: 0 <= i < |m| ==> '0' <= m[i] <= '9'
  {
  }

  lemma HasIt(t: Tree, dir: Path, y: string, m: string, y': string, m': string)
    requires MonthFile(t, dir, y', m') && Stripped(y') == Stripped(y) && Stripped(m') == Stripped(m)
    ensures HasMonth(t, dir, y, m)
  {
  }

  // One partition has every month of another.
  ghost predicate HasMonthsOf(t: Tree, dir: Path, legacy: Path) {
    forall y, m :: MonthFile(t, legacy, y, m) ==> HasMonth(t, dir, y, m)
  }

  lemma CoverageIs(t: Tree, s: Tree, legacy: Path, dir: Path)
    ensures CoveredMonths(t, legacy) <= CoveredMonths(s, dir) <==>
            forall y, m :: MonthFile(t, legacy, y, m) ==> HasMonth(s, dir, y, m)
  {
    if CoveredMonths(t, legacy) <= CoveredMonths(s, dir) {
      forall y, m | MonthFile(t, legacy, y, m) ensures HasMonth(s, dir, y, m) {
        FileDigits(t, legacy, y, m);
        hide *;
        MonthFileIs(t, legacy, y, m);
        MonthCounts(t, legacy, legacy + [y, m + ".parquet"]);
        MonthCovered(s, dir, y, m);
      }
    }
    if forall y, m :: MonthFile(t, legacy, y, m) ==> HasMonth(s, dir, y, m) {
      forall pair | pair in CoveredMonths(t, legacy) ensures pair in CoveredMonths(s, dir) {
        var p :| p in t && IsMonthFile(t, legacy, p) && MonthOf(t, legacy, p) == pair;
        hide *;
        var y, m := MonthNames(t, legacy, p);
        FileDigits(t, legacy, y, m);
        MonthCovered(s, dir, y, m);
      }
    }
  }

  // What the gate asks of a partition.
  ghost predicate Qualifies(t: Tree, dated: set<string>, legacy: string, candidate: string) {
    && ["data", "parquet", candidate] in t && t[["data", "parquet", candidate]] == Dir
    && candidate in dated
    && HasMonthsOf(t, ["data", "parquet", candidate], ["data", "parquet", legacy])
  }

  lemma ReplacesExactly(t: Tree, dated: set<string>, legacy: string, candidate: string)
    ensures Replaces(t, dated, legacy, candidate) <==> Qualifies(t, dated, legacy, candidate)
  {
    assert Partition(candidate) == ["data", "parquet", candidate] && Partition(legacy) == ["data", "parquet", legacy];
    hide Partition, CoveredMonths, HasMonth, MonthFile;
    CoverageIs(t, t, Partition(legacy), Partition(candidate));
  }

  /** The gate: what is found is the first of the three suffixed partitions that is a directory, is dated, and
      has a file for every month of the legacy directory; nothing is found exactly when none of them is so. */
  lemma GateOnNames(t: Tree, dated: set<string>, legacy: string)
    ensures var okx, binance, bybit := legacy + "-OKX", legacy + "-BINANCE", legacy + "-BYBIT";
            Replacement(t, dated, legacy) ==
            if Qualifies(t, dated, legacy, okx) then Some(okx)
            else if Qualifies(t, dated, legacy, binance) then Some(binance)
            else if Qualifies(t, dated, legacy, bybit) then Some(bybit)
            else None
  {
    var a, b, c := "-OKX", "-BINANCE", "-BYBIT";
    assert SUFFIXES == [a, b, c] && [a, b, c][1..] == [b, c] && [b, c][1..] == [c] && [c][1..] == [];
    hide Replaces, Qualifies;
    FirstStep(t, dated, legacy, [a, b, c]);
    FirstStep(t, dated, legacy, [b, c]);
    FirstStep(t, dated, legacy, [c]);
  }

  lemma FirstStep(t: Tree, dated: set<string>, legacy: string, suffixes: seq<string>)
    requires suffixes != []
    ensures FirstReplacement(t, dated, legacy, suffixes) ==
            if Qualifies(t, dated, legacy, legacy + suffixes[0]) then Some(legacy + suffixes[0])
            else FirstReplacement(t, dated, legacy, suffixes[1..])
    ensures FirstReplacement(t, dated, legacy, []) == None
  {
    ReplacesExactly(t, dated, legacy, legacy + suffixes[0]);
    hide Replaces, Qualifies;
  }

  /** Wherever the run dies, every month file of a legacy bar directory has a file for the same month in the
      partition that replaces it. */
  lemma CrashKeepsMonths(t: Tree, q: Request, k: nat, target: string, y: string, m: string)
    requires Cleared(t, q) && k <= |Program(Checked(t, q), q.stamp)|
    requires target in {"BTC_USDT", "ETH_USDT", "SOL_USDT", "XRP_USDT"}
    requires ["data", "parquet", target] in t && t[["data", "parquet", target]] == Dir
    requires MonthFile(t, ["data", "parquet", target], y, m)
    ensures exists suffix :: suffix in {"-OKX", "-BINANCE", "-BYBIT"}
              && Replacement(t, q.dated, target) == Some(target + suffix)
              && HasMonth(Stopped(t, q, k), ["data", "parquet", target + suffix], y, m)
  {
    hide *;
    TargetNames(target);
    PartitionIs(target);
    IsDirIs(t, Partition(target));
    CrashKeepsCoverage(t, q, k, target);
    var suffix := SuffixOf(t, q.dated, target);
    PartitionIs(target + suffix);
    CoverageIs(t, Stopped(t, q, k), Partition(target), Partition(target + suffix));
  }

  lemma IsDirIs(t: Tree, p: Path)
    ensures IsDir(t, p) <==> p in t && t[p] == Dir
  {
  }

  lemma SuffixOf(t: Tree, dated: set<string>, legacy: string) returns (suffix: string)
    requires Replacement(t, dated, legacy).Some?
    ensures suffix in {"-OKX", "-BINANCE", "-BYBIT"} && Replacement(t, dated, legacy) == Some(legacy + suffix)
  {
    GateOnNames(t, dated, legacy);
    hide *;
    if Replacement(t, dated, legacy) == Some(legacy + "-OKX") {
      suffix := "-OKX";
    } else if Replacement(t, dated, legacy) == Some(legacy + "-BINANCE") {
      suffix := "-BINANCE";
    } else {
      suffix := "-BYBIT";
    }
  }

  lemma PartitionIs(name: string)
    ensures Partition(name) == ["data", "parquet", name]
  {
  }

  lemma TargetNames(target: string)
    requires target in {"BTC_USDT", "ETH_USDT", "SOL_USDT", "XRP_USDT"}
    ensures IsTarget(target)
  {
    assert LegacyTargets()[0] == "BTC_USDT" && LegacyTargets()[1] == "ETH_USDT";
    assert LegacyTargets()[2] == "SOL_USDT" && LegacyTargets()[3] == "XRP_USDT";
  }

  /******* Where a finished run leaves every file *******/

  // Everything below the source of an operation is then below its destination, and nothing else is.
  lemma OpBelow(t: Tree, q: Request, v: Verdict, o: Relocation, rest: Path)
    requires Rooted(t) && Accepted(t, q, v) && Completes(t, Program(v, q.stamp)) && o in Ops(v)
    ensures var s := Run(t, Program(v, q.stamp));
            && o.src !in s
            && (o.src + rest in t <==> o.dst + rest in s)
            && (o.src + rest in t ==> s[o.dst + rest] == t[o.src + rest])
  {
    var base := Run(t, WithoutMoves(Program(v, q.stamp)));
    SourceAside(t, q, v, o, rest);
    hide Rooted, Accepted, Completes, Program, Run, Movable, Arranged, Ops, ManifestPath, ArchiveRoot;
    SourcesGone(t, q, v, o);
    BareBelow(t, q, v, o.src + rest);
    Finished(t, q, v);
    MovedBelow(base, Elements(Ops(v)), Run(t, Program(v, q.stamp)), o, o.src + rest);
    assert (o.src + rest)[|o.src|..] == rest;
  }

  lemma SourceAside(t: Tree, q: Request, v: Verdict, o: Relocation, rest: Path)
    requires Accepted(t, q, v) && o in Ops(v)
    ensures var p := o.src + rest;
            p != ManifestPath(q.stamp) && !(p <= ArchiveRoot()) && !(ArchiveRoot() <= p)
  {
    assert |o.src| >= 3 && o.src[1] == "parquet" == (o.src + rest)[1];
    assert ManifestPath(q.stamp)[1] == "parquet_archive" == ArchiveRoot()[1];
  }

  /** After a finished run each legacy bar directory is gone from data/parquet, and every file that was in it
      is in the stamp's directory of the archive, at the same place below it. */
  lemma BarsArchivedTo(t: Tree, q: Request, target: string, rest: Path)
    requires Cleared(t, q) && Completes(t, Program(Checked(t, q), q.stamp))
    requires target in {"BTC_USDT", "ETH_USDT", "SOL_USDT", "XRP_USDT"}
    requires ["data", "parquet", target] in t && t[["data", "parquet", target]] == Dir
    ensures var s := Run(t, Program(Checked(t, q), q.stamp));
            var from, moved := ["data", "parquet", target], ["data", "parquet_archive", q.stamp, target];
            && from !in s
            && (from + rest in t <==> moved + rest in s)
            && (from + rest in t ==> s[moved + rest] == t[from + rest])
  {
    var op := ArchiveOp(q.stamp, [target]);
    assert op.src == ["data", "parquet", target] && op.dst == ["data", "parquet_archive", q.stamp, target];
    hide *;
    TargetNames(target);
    PartitionIs(target);
    IsDirIs(t, Partition(target));
    TargetCleared(t, q, target);
    CheckedOp(t, q, op, rest);
  }

  lemma CheckedOp(t: Tree, q: Request, o: Relocation, rest: Path)
    requires Cleared(t, q) && Completes(t, Program(Checked(t, q), q.stamp))
    requires o in Checked(t, q).moves || o in Checked(t, q).relabels
    ensures var s := Run(t, Program(Checked(t, q), q.stamp));
            && o.src !in s
            && (o.src + rest in t <==> o.dst + rest in s)
            && (o.src + rest in t ==> s[o.dst + rest] == t[o.src + rest])
  {
    ClearedOrderly(t, q);
    assert o in Ops(Checked(t, q)) && Rooted(t);
    hide *;
    OpBelow(t, q, Checked(t, q), o, rest);
  }

  lemma MetaNames(meta: string)
    requires meta in {"meta_funding_rate", "meta_open_interest"}
    ensures IsMeta(meta)
  {
    assert MetaDirs()[0] == "meta_funding_rate" && MetaDirs()[1] == "meta_open_interest";
  }

  /** So are its meta directories, unless the run relabels: then those of BTC_USDT stay out of the archive and,
      if nothing had that name yet, are found with every file under BTC_USDT-OKX. */
  lemma MetasArchivedTo(t: Tree, q: Request, meta: string, target: string, rest: Path)
    requires Cleared(t, q) && Completes(t, Program(Checked(t, q), q.stamp))
    requires meta in {"meta_funding_rate", "meta_open_interest"}
    requires target in {"BTC_USDT", "ETH_USDT", "SOL_USDT", "XRP_USDT"}
    requires ["data", "parquet", target] in t && t[["data", "parquet", target]] == Dir
    requires ["data", "parquet", meta, target] in t && t[["data", "parquet", meta, target]] == Dir
    requires !(q.relabelMeta && target == "BTC_USDT")
    ensures var s := Run(t, Program(Checked(t, q), q.stamp));
            var from, moved := ["data", "parquet", meta, target], ["data", "parquet_archive", q.stamp, meta, target];
            && from !in s
            && (from + rest in t <==> moved + rest in s)
            && (from + rest in t ==> s[moved + rest] == t[from + rest])
  {
    hide *;
    var op := ArchiveOp(q.stamp, [meta, target]);
    MetaPlaces(q, meta, target);
    TargetNames(target);
    MetaNames(meta);
    PartitionIs(target);
    IsDirIs(t, Partition(target));
    IsDirIs(t, MetaPartition(meta, target));
    MetaArchived(t, q, meta, target);
    CheckedOp(t, q, op, rest);
  }

  lemma MetaPlaces(q: Request, meta: string, target: string)
    ensures MetaPartition(meta, target) == ["data", "parquet", meta, target]
    ensures ArchiveOp(q.stamp, [meta, target]).src == ["data", "parquet", meta, target]
    ensures ArchiveOp(q.stamp, [meta, target]).dst == ["data", "parquet_archive", q.stamp, meta, target]
    ensures !(q.relabelMeta && target == "BTC_USDT") ==> !Owned(q.relabelMeta, target)
  {
  }

  lemma MetasRelabelledTo(t: Tree, q: Request, meta: string, rest: Path)
    requires Cleared(t, q) && Completes(t, Program(Checked(t, q), q.stamp)) && q.relabelMeta
    requires meta in {"meta_funding_rate", "meta_open_interest"}
    requires ["data", "parquet", meta, "BTC_USDT"] in t && t[["data", "parquet", meta, "BTC_USDT"]] == Dir
    requires ["data", "parquet", meta, "BTC_USDT-OKX"] !in t
    ensures var s := Run(t, Program(Checked(t, q), q.stamp));
            var from, named := ["data", "parquet", meta, "BTC_USDT"], ["data", "parquet", meta, "BTC_USDT-OKX"];
            && from !in s
            && (from + rest in t <==> named + rest in s)
            && (from + rest in t ==> s[named + rest] == t[from + rest])
  {
    hide *;
    var op := RelabelOp(meta);
    RelabelPlaces(meta);
    MetaNames(meta);
    var k := MetaIndex(meta);
    IsDirIs(t, op.src);
    RelabelCleared(t, q, k);
    OpsAreBoth(Checked(t, q), op);
    CheckedOp(t, q, op, rest);
  }

  lemma RelabelPlaces(meta: string)
    ensures RelabelOp(meta).src == ["data", "parquet", meta, "BTC_USDT"]
    ensures RelabelOp(meta).dst == ["data", "parquet", meta, "BTC_USDT-OKX"]
  {
    assert RelabelName() == "BTC_USDT-OKX";
  }

  lemma MetaIndex(meta: string) returns (k: nat)
    requires IsMeta(meta)
    ensures k < |MetaDirs()| && MetaDirs()[k] == meta
  {
    k :| 0 <= k < |MetaDirs()| && MetaDirs()[k] == meta;
  }

  lemma OpsAreBoth(v: Verdict, o: Relocation)
    requires o in Ops(v)
    ensures o in v.moves || o in v.relabels
  {
  }
}
