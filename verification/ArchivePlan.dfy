/** The archive tool's planning half: which months a partition covers, which partition may
    replace a legacy directory, the plan, and the full pre-check that precedes any mutation. */
module ArchivePlan {
  import opened Common
  import opened ArchiveTree

  // The constants of the tool are functions, so that a proof can hide what they spell out.
  function ParquetDir(): Path {
    ["data", "parquet"]
  }

  function ArchiveRoot(): Path {
    ["data", "parquet_archive"]
  }

  function LegacyTargets(): seq<string> {
    ["BTC_USDT", "ETH_USDT", "SOL_USDT", "XRP_USDT"]
  }

  function MetaDirs(): seq<string> {
    ["meta_funding_rate", "meta_open_interest"]
  }

  function RelabelTarget(): string {
    "BTC_USDT"
  }

  function RelabelName(): string {
    RelabelTarget() + "-OKX"
  }

  const SUFFIXES: seq<string> := ["-OKX", "-BINANCE", "-BYBIT"]

  /******* Month coverage *******/

  type Month = (nat, nat)

  predicate IsDigits(s: string) {
    s != "" && forall i :: 0 <= i < |s| ==> '0' <= s[i] <= '9'
  }

  function Number(s: string): nat
    requires forall i :: 0 <= i < |s| ==> '0' <= s[i] <= '9'
  {
    if s == "" then 0 else 10 * Number(s[..|s| - 1]) + (s[|s| - 1] as int - '0' as int)
  }

  const EXTENSION := ".parquet"

  predicate IsParquet(name: string) {
    |EXTENSION| <= |name| && name[|name| - |EXTENSION|..] == EXTENSION
  }

  function Stem(name: string): string
    requires IsParquet(name)
  {
    name[..|name| - |EXTENSION|]
  }

  predicate IsYear(t: Tree, dir: Path, y: Path) {
    |y| == |dir| + 1 && dir <= y && IsDir(t, y) && IsDigits(y[|dir|])
  }

  predicate IsMonth(year: Path, p: Path) {
    |p| == |year| + 1 && year <= p && IsParquet(p[|year|]) && IsDigits(Stem(p[|year|]))
  }

  predicate IsMonthFile(t: Tree, dir: Path, p: Path) {
    |p| == |dir| + 2 && IsYear(t, dir, Parent(p)) && IsMonth(Parent(p), p)
  }

  function MonthOf(t: Tree, dir: Path, p: Path): Month
    requires IsMonthFile(t, dir, p)
  {
    (Number(p[|dir|]), Number(Stem(p[|dir| + 1])))
  }

  function CoveredMonths(t: Tree, dir: Path): set<Month> {
    set p | p in t && IsMonthFile(t, dir, p) :: MonthOf(t, dir, p)
  }

  function CoveredIn(t: Tree, dir: Path, years: set<Path>): set<Month> {
    set p | p in t && IsMonthFile(t, dir, p) && Parent(p) in years :: MonthOf(t, dir, p)
  }

  function ListYear(t: Tree, dir: Path, y: Path): set<Month>
    requires IsYear(t, dir, y)
  {
    set p | p in t && IsMonth(y, p) :: (Number(y[|dir|]), Number(Stem(p[|y|])))
  }

  lemma ListYearCovers(t: Tree, dir: Path, years: set<Path>, y: Path)
    requires IsYear(t, dir, y)
    ensures CoveredIn(t, dir, years + {y}) == CoveredIn(t, dir, years) + ListYear(t, dir, y)
  {
    forall m | m in ListYear(t, dir, y) ensures m in CoveredIn(t, dir, years + {y}) {
      var p :| p in t && IsMonth(y, p) && m == (Number(y[|dir|]), Number(Stem(p[|y|])));
      assert Parent(p) == y && MonthOf(t, dir, p) == m;
    }
  }

  // The directory listings come in no particular order.
  method CollectMonths(t: Tree, dir: Path) returns (months: set<Month>)
    ensures months == CoveredMonths(t, dir)
  {
    months := {};
    var entries := set y | y in t && |y| == |dir| + 1 && dir <= y;
    ghost var listed: set<Path> := {};
    while entries != {}
      invariant forall y :: IsYear(t, dir, y) ==> y in entries || y in listed
      invariant months == CoveredIn(t, dir, listed)
      decreases |entries|
    {
      var y :| y in entries;
      entries := entries - {y};
      if IsYear(t, dir, y) {
        months := months + ListYear(t, dir, y);
        ListYearCovers(t, dir, listed, y);
        listed := listed + {y};
      }
    }
  }

  /******* Replacements *******/

  function Partition(name: string): Path {
    ParquetDir() + [name]
  }

  // A candidate is usable when its directory exists, the store knows a date range for it, and it
  // holds every month of the legacy directory (or the legacy directory holds none).
  predicate Replaces(t: Tree, dated: set<string>, legacy: string, candidate: string) {
    && IsDir(t, Partition(candidate))
    && candidate in dated
    && (CoveredMonths(t, Partition(legacy)) == {}
      || CoveredMonths(t, Partition(legacy)) <= CoveredMonths(t, Partition(candidate)))
  }

  function FirstReplacement(t: Tree, dated: set<string>, legacy: string, suffixes: seq<string>): (r: Option<string>)
    ensures r.Some? ==> Replaces(t, dated, legacy, r.value)
    ensures r.Some? ==> exists i :: 0 <= i < |suffixes| && r.value == legacy + suffixes[i]
                          && forall j :: 0 <= j < i ==> !Replaces(t, dated, legacy, legacy + suffixes[j])
    ensures r.None? <==> forall s :: s in suffixes ==> !Replaces(t, dated, legacy, legacy + s)
  {
    if suffixes == [] then None
    else if Replaces(t, dated, legacy, legacy + suffixes[0]) then Some(legacy + suffixes[0])
    else FirstReplacement(t, dated, legacy, suffixes[1..])
  }

  function Replacement(t: Tree, dated: set<string>, legacy: string): Option<string> {
    FirstReplacement(t, dated, legacy, SUFFIXES)
  }

  method FindReplacement(t: Tree, dated: set<string>, legacy: string) returns (r: Option<string>)
    ensures r == Replacement(t, dated, legacy)
  {
    hide CoveredMonths, Partition, IsDir;
    var legacyMonths := CollectMonths(t, Partition(legacy));
    for i := 0 to |SUFFIXES|
      invariant Replacement(t, dated, legacy) == FirstReplacement(t, dated, legacy, SUFFIXES[i..])
    {
      var candidate := legacy + SUFFIXES[i];
      if IsDir(t, Partition(candidate)) && candidate in dated {
        var months := CollectMonths(t, Partition(candidate));
        if legacyMonths == {} || legacyMonths <= months {
          return Some(candidate);
        }
      }
    }
    return None;
  }

  /******* The plan *******/

  // Moves are kept relative to the parquet directory.
  datatype Entry = Entry(legacy: string, replacement: Option<string>, moves: seq<Path>, relabels: seq<Relocation>)

  // The first n metas, likewise below: each loop of the planner appends, so each prefix is one iteration more.
  function MetaMoves(t: Tree, relabelMeta: bool, target: string, n: nat): seq<Path>
    requires n <= |MetaDirs()|
  {
    if n == 0 then []
    else
      var sub := [MetaDirs()[n - 1], target];
      MetaMoves(t, relabelMeta, target, n - 1) +
      if !(relabelMeta && target == RelabelTarget()) && IsDir(t, ParquetDir() + sub) then [sub] else []
  }

  function TargetEntry(t: Tree, dated: set<string>, relabelMeta: bool, target: string): Entry {
    Entry(target, Replacement(t, dated, target), [[target]] + MetaMoves(t, relabelMeta, target, |MetaDirs()|), [])
  }

  function TargetEntries(t: Tree, dated: set<string>, relabelMeta: bool, n: nat): seq<Entry>
    requires n <= |LegacyTargets()|
  {
    if n == 0 then []
    else
      var target := LegacyTargets()[n - 1];
      TargetEntries(t, dated, relabelMeta, n - 1) +
      if IsDir(t, Partition(target)) then [TargetEntry(t, dated, relabelMeta, target)] else []
  }

  function RelabelOp(meta: string): Relocation {
    Relocation(ParquetDir() + [meta, RelabelTarget()], ParquetDir() + [meta, RelabelName()])
  }

  function RelabelEntry(meta: string): Entry {
    Entry(meta + "/" + RelabelTarget(), Some(meta + "/" + RelabelName()), [], [RelabelOp(meta)])
  }

  function RelabelEntries(t: Tree, n: nat): seq<Entry>
    requires n <= |MetaDirs()|
  {
    if n == 0 then []
    else
      var op := RelabelOp(MetaDirs()[n - 1]);
      RelabelEntries(t, n - 1) + if IsDir(t, op.src) && op.dst !in t then [RelabelEntry(MetaDirs()[n - 1])] else []
  }

  function Plan(t: Tree, dated: set<string>, relabelMeta: bool): seq<Entry> {
    TargetEntries(t, dated, relabelMeta, |LegacyTargets()|) +
    if relabelMeta then RelabelEntries(t, |MetaDirs()|) else []
  }

  method BuildPlan(t: Tree, dated: set<string>, relabelMeta: bool) returns (plan: seq<Entry>)
    ensures plan == Plan(t, dated, relabelMeta)
  {
    hide Replacement, Partition, IsDir, LegacyTargets, MetaDirs, RelabelOp, RelabelEntry;
    plan := [];
    for i := 0 to |LegacyTargets()|
      invariant plan == TargetEntries(t, dated, relabelMeta, i)
    {
      var target := LegacyTargets()[i];
      if IsDir(t, Partition(target)) {
        var replacement := FindReplacement(t, dated, target);
        var moves := [[target]];
        for j := 0 to |MetaDirs()|
          invariant moves == [[target]] + MetaMoves(t, relabelMeta, target, j)
        {
          var sub := [MetaDirs()[j], target];
          if !(relabelMeta && target == RelabelTarget()) && IsDir(t, ParquetDir() + sub) {
            moves := moves + [sub];
          }
        }
        plan := plan + [Entry(target, replacement, moves, [])];
      }
    }
    if relabelMeta {
      ghost var archived := plan;
      for i := 0 to |MetaDirs()|
        invariant plan == archived + RelabelEntries(t, i)
      {
        var op := RelabelOp(MetaDirs()[i]);
        if IsDir(t, op.src) && op.dst !in t {
          plan := plan + [RelabelEntry(MetaDirs()[i])];
        }
      }
    }
  }

  /******* Phase 1: the pre-check *******/

  datatype Problem =
    | NoReplacement(legacy: string)
    | SourceMissing(src: Path)
    | DestinationExists(dst: Path)

  function ArchiveOp(stamp: string, sub: Path): Relocation {
    Relocation(ParquetDir() + sub, ArchiveRoot() + [stamp] + sub)
  }

  // What the pre-check accumulates: the reasons to block, and the relocations that may go ahead.
  datatype Verdict = Verdict(problems: seq<Problem>, moves: seq<Relocation>, relabels: seq<Relocation>)

  function Reason(t: Tree, op: Relocation): Option<Problem> {
    if !IsDir(t, op.src) then Some(SourceMissing(op.src))
    else if op.dst in t then Some(DestinationExists(op.dst))
    else None
  }

  function CheckMoves(t: Tree, stamp: string, subs: seq<Path>, n: nat, v: Verdict): Verdict
    requires n <= |subs|
  {
    if n == 0 then v
    else
      var v', op := CheckMoves(t, stamp, subs, n - 1, v), ArchiveOp(stamp, subs[n - 1]);
      match Reason(t, op)
      case Some(p) => v'.(problems := v'.problems + [p])
      case None => v'.(moves := v'.moves + [op])
  }

  function CheckRelabels(t: Tree, ops: seq<Relocation>, n: nat, v: Verdict): Verdict
    requires n <= |ops|
  {
    if n == 0 then v
    else
      var v' := CheckRelabels(t, ops, n - 1, v);
      match Reason(t, ops[n - 1])
      case Some(p) => v'.(problems := v'.problems + [p])
      case None => v'.(relabels := v'.relabels + [ops[n - 1]])
  }

  function CheckEntry(t: Tree, stamp: string, e: Entry, v: Verdict): Verdict {
    if e.replacement.None? then v.(problems := v.problems + [NoReplacement(e.legacy)])
    else CheckRelabels(t, e.relabels, |e.relabels|, CheckMoves(t, stamp, e.moves, |e.moves|, v))
  }

  function CheckPlan(t: Tree, stamp: string, plan: seq<Entry>, n: nat): Verdict
    requires n <= |plan|
  {
    if n == 0 then Verdict([], [], []) else CheckEntry(t, stamp, plan[n - 1], CheckPlan(t, stamp, plan, n - 1))
  }

  method Precheck(t: Tree, stamp: string, plan: seq<Entry>)
    returns (problems: seq<Problem>, moves: seq<Relocation>, relabels: seq<Relocation>)
    ensures Verdict(problems, moves, relabels) == CheckPlan(t, stamp, plan, |plan|)
  {
    problems, moves, relabels := [], [], [];
    for i := 0 to |plan|
      invariant Verdict(problems, moves, relabels) == CheckPlan(t, stamp, plan, i)
    {
      var e := plan[i];
      if e.replacement.None? {
        problems := problems + [NoReplacement(e.legacy)];
        continue;
      }
      ghost var v := Verdict(problems, moves, relabels);
      for j := 0 to |e.moves|
        invariant Verdict(problems, moves, relabels) == CheckMoves(t, stamp, e.moves, j, v)
      {
        var op := ArchiveOp(stamp, e.moves[j]);
        match Reason(t, op)
        case Some(p) => problems := problems + [p];
        case None => moves := moves + [op];
      }
      ghost var v' := Verdict(problems, moves, relabels);
      for j := 0 to |e.relabels|
        invariant Verdict(problems, moves, relabels) == CheckRelabels(t, e.relabels, j, v')
      {
        match Reason(t, e.relabels[j])
        case Some(p) => problems := problems + [p];
        case None => relabels := relabels + [e.relabels[j]];
      }
    }
  }
}
