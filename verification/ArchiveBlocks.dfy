/** What an archive run does, step by step, and what blocks it, in terms of names. */
module ArchiveBlocks {
  import opened Common
  import opened ArchiveTree
  import opened ArchivePlan
  import opened ArchiveShape
  import opened ArchiveMigration
  import opened ArchiveSafety
  import opened ArchiveMonths

  /******* The steps *******/

  lemma {:induction false} MoveStepsAre(moves: seq<Relocation>, n: nat, i: nat)
    requires i < n <= |moves|
    ensures |MoveSteps(moves, n)| == 2 * n
    ensures MoveSteps(moves, n)[2 * i] == MkDirs(Parent(moves[i].dst))
        && MoveSteps(moves, n)[2 * i + 1] == Move(moves[i])
  {
    if i < n - 1 {
      MoveStepsAre(moves, n - 1, i);
    } else if n > 1 {
      MoveStepsAre(moves, n - 1, 0);
    }
  }

  lemma {:induction false} RelabelStepsAre(relabels: seq<Relocation>, n: nat)
    requires n <= |relabels|
    ensures |RelabelSteps(relabels, n)| == n
    ensures forall j :: 0 <= j < n ==> RelabelSteps(relabels, n)[j] == Move(relabels[j])
  {
    if n > 0 {
      RelabelStepsAre(relabels, n - 1);
    }
  }

  /** The manifest is written as planned first and as applied last; in between the moves are made in order, each
      after its destination's parent, and then the renames in order. */
  lemma ProgramIs(v: Verdict, stamp: string, i: nat)
    ensures var program, m, r := Program(v, stamp), |v.moves|, |v.relabels|;
            var manifest := ["data", "parquet_archive", "manifest_" + stamp + ".json"];
            && |program| == 2 + 2 * m + r + 1
            && program[0] == MkDirs(["data", "parquet_archive"])
            && program[1] == Write(manifest, Manifest(Planned, v.moves, v.relabels))
            && (i < m ==>
                  && program[2 + 2 * i] == MkDirs(Parent(v.moves[i].dst))
                  && program[2 + 2 * i + 1] == Move(v.moves[i]))
            && (i < r ==> program[2 + 2 * m + i] == Move(v.relabels[i]))
            && program[2 + 2 * m + r] == Write(manifest, Manifest(Applied, v.moves, v.relabels))
  {
    var m, r := |v.moves|, |v.relabels|;
    if m > 0 {
      MoveStepsAre(v.moves, m, if i < m then i else 0);
    }
    RelabelStepsAre(v.relabels, r);
    assert ManifestPath(stamp) == ["data", "parquet_archive", "manifest_" + stamp + ".json"];
    var opening, moving, renaming := Opening(v, stamp), MoveSteps(v.moves, m), RelabelSteps(v.relabels, r);
    assert Program(v, stamp) == opening + moving + renaming + [Write(ManifestPath(stamp), Record(v, Applied))];
    hide Program, MoveSteps, RelabelSteps;
  }

  /******* What blocks a run *******/

  ghost predicate EntryOf(t: Tree, dated: set<string>, relabelMeta: bool, target: string, e: Entry) {
    IsDir(t, Partition(target)) && e == TargetEntry(t, dated, relabelMeta, target)
  }

  lemma {:induction false} EntriesAre(t: Tree, dated: set<string>, relabelMeta: bool, n: nat, e: Entry)
    requires n <= |LegacyTargets()|
    ensures e in TargetEntries(t, dated, relabelMeta, n) <==>
            exists i :: 0 <= i < n && EntryOf(t, dated, relabelMeta, LegacyTargets()[i], e)
  {
    hide LegacyTargets, TargetEntry, IsDir, Partition;
    if n > 0 {
      EntriesAre(t, dated, relabelMeta, n - 1, e);
    }
  }

  lemma {:induction false} MetaMovesAre(t: Tree, relabelMeta: bool, target: string, n: nat, sub: Path)
    requires n <= |MetaDirs()|
    ensures sub in MetaMoves(t, relabelMeta, target, n) <==>
            exists j :: 0 <= j < n && sub == [MetaDirs()[j], target]
                        && !(relabelMeta && target == RelabelTarget())
                          && IsDir(t, ParquetDir() + [MetaDirs()[j], target])
  {
    hide MetaDirs, RelabelTarget, IsDir, ParquetDir;
    if n > 0 {
      MetaMovesAre(t, relabelMeta, target, n - 1, sub);
    }
  }

  lemma {:induction false} RelabelsFree(t: Tree, n: nat, e: Entry)
    requires n <= |MetaDirs()| && e in RelabelEntries(t, n)
    ensures e.replacement.Some? && e.moves == []
  {
    hide MetaDirs, RelabelOp;
    if e in RelabelEntries(t, n - 1) {
      RelabelsFree(t, n - 1, e);
    }
  }

  ghost predicate EntryClear(t: Tree, stamp: string, e: Entry) {
    e.replacement.Some? && forall sub :: sub in e.moves ==> ArchiveOp(stamp, sub).dst !in t
  }

  ghost predicate TargetsClear(t: Tree, q: Request) {
    forall i :: 0 <= i < |LegacyTargets()| && IsDir(t, Partition(LegacyTargets()[i])) ==>
      EntryClear(t, q.stamp, TargetEntry(t, q.dated, q.relabelMeta, LegacyTargets()[i]))
  }

  lemma ClearByTarget(t: Tree, q: Request)
    ensures Checked(t, q).problems == [] <==> TargetsClear(t, q)
  {
    BlockedExactly(t, q);
    var plan := Plan(t, q.dated, q.relabelMeta);
    var targets := TargetEntries(t, q.dated, q.relabelMeta, |LegacyTargets()|);
    var renames := if q.relabelMeta then RelabelEntries(t, |MetaDirs()|) else [];
    assert plan == targets + renames;
    hide Checked, Plan, TargetEntries, RelabelEntries, LegacyTargets, MetaDirs, TargetEntry, IsDir, Partition,
        ArchiveOp;
    forall e
      ensures e in targets <==>
          exists i :: 0 <= i < |LegacyTargets()| && EntryOf(t, q.dated, q.relabelMeta, LegacyTargets()[i], e)
    {
      EntriesAre(t, q.dated, q.relabelMeta, |LegacyTargets()|, e);
    }
    forall e | e in renames ensures EntryClear(t, q.stamp, e) {
      RelabelsFree(t, |MetaDirs()|, e);
    }
    assert Checked(t, q).problems == [] <==> forall e :: e in plan ==> EntryClear(t, q.stamp, e);
    assert forall i :: 0 <= i < |LegacyTargets()| && IsDir(t, Partition(LegacyTargets()[i])) ==>
        TargetEntry(t, q.dated, q.relabelMeta, LegacyTargets()[i]) in targets;
  }

  // Nothing is in the way of archiving the target's bars and metas, and some partition replaces it.
  ghost predicate Archivable(t: Tree, q: Request, target: string) {
    && (Qualifies(t, q.dated, target, target + "-OKX") || Qualifies(t, q.dated, target, target + "-BINANCE")
        || Qualifies(t, q.dated, target, target + "-BYBIT"))
    && ["data", "parquet_archive", q.stamp, target] !in t
    && (MetaStays(t, q, "meta_funding_rate", target)
        || ["data", "parquet_archive", q.stamp, "meta_funding_rate", target] !in t)
    && (MetaStays(t, q, "meta_open_interest", target)
        || ["data", "parquet_archive", q.stamp, "meta_open_interest", target] !in t)
  }

  ghost predicate HasBars(t: Tree, target: string) {
    var p := ["data", "parquet", target];
    p in t && t[p] == Dir
  }

  // There is no such meta directory, or it is to be renamed instead.
  ghost predicate MetaStays(t: Tree, q: Request, meta: string, target: string) {
    var p := ["data", "parquet", meta, target];
    (q.relabelMeta && target == "BTC_USDT") || !(p in t && t[p] == Dir)
  }

  lemma PlacesOf(stamp: string, meta: string, target: string)
    ensures ArchiveOp(stamp, [target]).dst == ["data", "parquet_archive", stamp, target]
    ensures ArchiveOp(stamp, [meta, target]).dst == ["data", "parquet_archive", stamp, meta, target]
    ensures ParquetDir() + [meta, target] == ["data", "parquet", meta, target]
  {
  }

  lemma MetaMove(t: Tree, q: Request, target: string, j: nat)
    requires j < |MetaDirs()|
    ensures [MetaDirs()[j], target] in MetaMoves(t, q.relabelMeta, target, |MetaDirs()|) <==>
            !MetaStays(t, q, MetaDirs()[j], target)
  {
    MetaMovesAre(t, q.relabelMeta, target, |MetaDirs()|, [MetaDirs()[j], target]);
    PlacesOf(q.stamp, MetaDirs()[j], target);
    hide MetaDirs, ParquetDir, MetaMoves;
    var p := ["data", "parquet", MetaDirs()[j], target];
    assert IsDir(t, p) <==> p in t && t[p] == Dir;
  }

  lemma EntryClearIs(t: Tree, q: Request, target: string)
    ensures EntryClear(t, q.stamp, TargetEntry(t, q.dated, q.relabelMeta, target)) <==> Archivable(t, q, target)
  {
    var e, metas := TargetEntry(t, q.dated, q.relabelMeta, target), MetaMoves(t, q.relabelMeta, target, |MetaDirs()|);
    assert e.moves == [[target]] + metas && e.replacement == Replacement(t, q.dated, target);
    assert |MetaDirs()| == 2 && MetaDirs()[0] == "meta_funding_rate" && MetaDirs()[1] == "meta_open_interest";
    GateOnNames(t, q.dated, target);
    PlacesOf(q.stamp, "meta_funding_rate", target);
    PlacesOf(q.stamp, "meta_open_interest", target);
    MetaMove(t, q, target, 0);
    MetaMove(t, q, target, 1);
    hide TargetEntry, MetaMoves, MetaDirs, Replacement, Qualifies, ArchiveOp, MetaStays;
    forall sub | sub in metas ensures sub == ["meta_funding_rate", target] || sub == ["meta_open_interest", target] {
      MetaMovesAre(t, q.relabelMeta, target, |MetaDirs()|, sub);
    }
    assert [target] in e.moves && forall sub :: sub in e.moves <==> sub == [target] || sub in metas;
  }

  /** A run is cleared exactly when each legacy bar directory that is there has a partition that qualifies and
      nothing stands where it, or a meta directory to be archived with it, would go. */
  lemma BlockedOnNames(t: Tree, q: Request)
    ensures Checked(t, q).problems == [] <==>
            forall target :: target in {"BTC_USDT", "ETH_USDT", "SOL_USDT", "XRP_USDT"} && HasBars(t, target) ==>
              Archivable(t, q, target)
  {
    ClearByTarget(t, q);
    hide Checked, Archivable, TargetEntry, EntryClear, Partition, HasBars, IsDir;
    forall i | 0 <= i < |LegacyTargets()|
      ensures LegacyTargets()[i] in {"BTC_USDT", "ETH_USDT", "SOL_USDT", "XRP_USDT"}
      ensures IsDir(t, Partition(LegacyTargets()[i])) <==> HasBars(t, LegacyTargets()[i])
      ensures EntryClear(t, q.stamp, TargetEntry(t, q.dated, q.relabelMeta, LegacyTargets()[i])) <==>
          Archivable(t, q, LegacyTargets()[i])
    {
      BarsAre(t, LegacyTargets()[i]);
      EntryClearIs(t, q, LegacyTargets()[i]);
    }
    hide LegacyTargets;
    forall target | target in {"BTC_USDT", "ETH_USDT", "SOL_USDT", "XRP_USDT"}
      ensures HasBars(t, target) && TargetsClear(t, q) ==> Archivable(t, q, target)
    {
      TargetNames(target);
      var i :| 0 <= i < |LegacyTargets()| && LegacyTargets()[i] == target;
    }
  }

  lemma BarsAre(t: Tree, target: string)
    ensures IsDir(t, Partition(target)) <==> HasBars(t, target)
  {
    PartitionIs(target);
  }
}
