/** The ledger of credited paper-trading days and the streak read from it. Dates are day numbers. */
module Streak {
  import opened Common

  /******* Which summaries credit a day *******/

  datatype Deviation = Deviation(status: Option<string>, healthOk: Option<bool>)

  // The fields of a session summary the ledger reads; a missing status is the empty string, and a
  // deviation that is not a dictionary is None.
  datatype Summary = Summary(status: string, preflightRc: Option<int>, path: Option<string>,
    deviation: Option<Deviation>)

  const OK_STATUSES := {"ok", "baseline_deviation_degraded"}
  const BAD_STATUSES := {"preflight_failed", "batch_gate_failed", "run_failed", "baseline_deviation_alert"}

  datatype Reason = Credited | BadStatus | PreflightRc | UnknownOffPath | HardAlert | NotPathA | NotOk | NoDate

  predicate OnPathA(s: Summary) {
    s.path in {None, Some("A"), Some("a")}
  }

  predicate Alerts(s: Summary) {
    s.deviation.Some? && (s.deviation.value.status == Some("alert") || s.deviation.value.healthOk == Some(false))
  }

  function SummaryIsCredit(s: Summary): Reason {
    if s.status in BAD_STATUSES then BadStatus
    else if s.status !in OK_STATUSES && s.status != "ok" && s.preflightRc !in {Some(0), None} then PreflightRc
    else if s.status !in OK_STATUSES && s.status != "ok" && !OnPathA(s) then UnknownOffPath
    else if Alerts(s) then HardAlert
    else if !OnPathA(s) then NotPathA
    else if s.status in OK_STATUSES || s.preflightRc == Some(0) then Credited
    else NotOk
  }

  /** A day is credited exactly on path A, without a hard alert, and with an ok status or, for a status
      in neither list, a preflight that exited with zero. */
  lemma CreditExactly(s: Summary)
    ensures SummaryIsCredit(s) == Credited <==>
            && OnPathA(s) && !Alerts(s)
            && (s.status in OK_STATUSES || (s.status !in BAD_STATUSES && s.preflightRc == Some(0)))
    ensures s.status in OK_STATUSES ==> s.status !in BAD_STATUSES
  {
    if s.status == "ok" {
      assert s.status[0] == 'o' && s.status !in BAD_STATUSES;
    } else if s.status == "baseline_deviation_degraded" {
      assert |s.status| == 27 && s.status !in BAD_STATUSES;
    }
  }

  /** The same with everything spelled out. */
  lemma CreditIs(s: Summary)
    ensures SummaryIsCredit(s) == Credited <==>
            && (s.path == None || s.path == Some("A") || s.path == Some("a"))
            && (s.deviation.None? ||
                (s.deviation.value.status != Some("alert") && s.deviation.value.healthOk != Some(false)))
            && (Fine(s.status) || (!Failed(s.status) && s.preflightRc == Some(0)))
  {
    CreditExactly(s);
  }

  ghost predicate Fine(status: string) {
    status == "ok" || status == "baseline_deviation_degraded"
  }

  ghost predicate Failed(status: string) {
    || status == "preflight_failed" || status == "batch_gate_failed" || status == "run_failed"
    || status == "baseline_deviation_alert"
  }

  lemma FineNotFailed(status: string)
    ensures !(Fine(status) && Failed(status))
  {
    if status == "ok" {
      assert |status| == 2;
    } else if status == "baseline_deviation_degraded" {
      assert |status| == 27;
    }
  }

  /** The reason for turning a summary down, for each reason when it is given. */
  lemma ReasonExactly(s: Summary)
    ensures var reason, fine, failed := SummaryIsCredit(s), Fine(s.status), Failed(s.status);
            var offPath, wrongRc := !OnPathA(s), s.preflightRc != Some(0) && s.preflightRc != None;
            && (reason == BadStatus <==> failed)
            && (reason == PreflightRc <==> !failed && !fine && wrongRc)
            && (reason == UnknownOffPath <==> !failed && !fine && !wrongRc && offPath)
            && (reason == HardAlert <==> !failed && (fine || (!wrongRc && !offPath)) && Alerts(s))
            && (reason == NotPathA <==> fine && !Alerts(s) && offPath)
            && (reason == NotOk <==> !failed && !fine && s.preflightRc == None && !offPath && !Alerts(s))
            && reason != NoDate
  {
    FineNotFailed(s.status);
    assert Fine(s.status) <==> s.status in OK_STATUSES;
    assert Failed(s.status) <==> s.status in BAD_STATUSES;
    hide Fine, Failed, OK_STATUSES, BAD_STATUSES, OnPathA, Alerts;
    assert s.status == "ok" ==> s.status in OK_STATUSES by { OkIsFine(); }
  }

  lemma OkIsFine()
    ensures "ok" in OK_STATUSES
  {
  }

  /******* The ledger *******/

  // A session file: None when it cannot be read or holds nothing; the day is None when no date parses.
  datatype SessionFile = SessionFile(name: string, content: Option<(Option<int>, Summary)>)

  datatype Entry = Entry(date: int, source: string, summary: Summary, ingestedAt: int)

  datatype Rejection = Rejection(file: string, day: Option<int>, reason: Reason)

  // The day a file credits, if it credits one.
  function CreditedDay(f: SessionFile): Option<int> {
    match f.content
    case Some((Some(day), summary)) => if SummaryIsCredit(summary) == Credited then Some(day) else None
    case _ => None
  }

  function EntryOf(f: SessionFile, now: int): Entry
    requires CreditedDay(f).Some?
  {
    Entry(CreditedDay(f).value, f.name, f.content.value.1, now)
  }

  function RejectionOf(f: SessionFile): Option<Rejection> {
    match f.content
    case Some((None, _)) => Some(Rejection(f.name, None, NoDate))
    case Some((Some(day), summary)) =>
      if SummaryIsCredit(summary) == Credited then None
      else Some(Rejection(f.name, Some(day), SummaryIsCredit(summary)))
    case None => None
  }

  // The days after the first n files.
  function Recorded(days: map<int, Entry>, files: seq<SessionFile>, n: nat, now: int): map<int, Entry>
    requires n <= |files|
  {
    if n == 0 then days
    else
      var before := Recorded(days, files, n - 1, now);
      var f := files[n - 1];
      if CreditedDay(f).Some? then before[CreditedDay(f).value := EntryOf(f, now)] else before
  }

  function CreditDays(files: seq<SessionFile>): set<int> {
    set f | f in files && CreditedDay(f).Some? :: CreditedDay(f).value
  }

  function Rejections(files: seq<SessionFile>, n: nat): seq<Rejection>
    requires n <= |files|
  {
    if n == 0 then []
    else Rejections(files, n - 1) + if RejectionOf(files[n - 1]).Some? then [RejectionOf(files[n - 1]).value] else []
  }

  // Files that could be read.
  function Scanned(files: seq<SessionFile>, n: nat): nat
    requires n <= |files|
  {
    if n == 0 then 0 else Scanned(files, n - 1) + if files[n - 1].content.Some? then 1 else 0
  }

  class Ledger {
    var days: map<int, Entry>
    var ingestedAt: Option<int>
    var scanned: nat
    var creditedKeys: set<int>
    var rejected: seq<Rejection>

    constructor (days: map<int, Entry>)
      ensures this.days == days
    {
      this.days := days;
      ingestedAt := None;
      scanned := 0;
      creditedKeys := {};
      rejected := [];
    }

    /** One pass over the files, at a time read once; at most the first twenty rejections are kept. */
    method Ingest(files: seq<SessionFile>, now: int)
      modifies this
      ensures days == Recorded(old(days), files, |files|, now)
      ensures ingestedAt == Some(now) && scanned == Scanned(files, |files|)
      ensures creditedKeys == CreditDays(files)
      ensures rejected == var all := Rejections(files, |files|); if |all| <= 20 then all else all[..20]
    {
      var days, read, credited, rejections := days, 0, {}, [];
      for i := 0 to |files|
        invariant days == Recorded(old(this.days), files, i, now)
        invariant read == Scanned(files, i)
        invariant credited == CreditDays(files[..i])
        invariant rejections == Rejections(files, i)
        invariant this.days == old(this.days)
      {
        assert files[..i + 1] == files[..i] + [files[i]];
        match files[i].content {
          case None =>
          case Some((None, _)) =>
            read := read + 1;
            rejections := rejections + [Rejection(files[i].name, None, NoDate)];
          case Some((Some(day), summary)) =>
            read := read + 1;
            var reason := SummaryIsCredit(summary);
            if reason != Credited {
              rejections := rejections + [Rejection(files[i].name, Some(day), reason)];
            } else {
              days := days[day := Entry(day, files[i].name, summary, now)];
              credited := credited + {day};
            }
        }
      }
      assert files[..|files|] == files;
      this.days := days;
      ingestedAt := Some(now);
      scanned := read;
      creditedKeys := credited;
      rejected := if |rejections| <= 20 then rejections else rejections[..20];
    }
  }

  /** The days after an ingest are the old days and the credited ones. */
  lemma {:induction false} RecordedDays(days: map<int, Entry>, files: seq<SessionFile>, n: nat, now: int)
    requires n <= |files|
    ensures Recorded(days, files, n, now).Keys == days.Keys + CreditDays(files[..n])
  {
    if n > 0 {
      RecordedDays(days, files, n - 1, now);
      assert files[..n] == files[..n - 1] + [files[n - 1]];
    }
  }

  // The file is a dated summary of the day that credits it.
  ghost predicate Credits(f: SessionFile, day: int) {
    f.content.Some? && f.content.value.0 == Some(day) && SummaryIsCredit(f.content.value.1) == Credited
  }

  lemma CreditsIs(f: SessionFile, day: int)
    ensures Credits(f, day) <==> CreditedDay(f) == Some(day)
  {
  }

  ghost predicate SomeCredits(files: seq<SessionFile>, day: int) {
    exists i :: 0 <= i < |files| && Credits(files[i], day)
  }

  /** A day is in the ledger exactly when it was or when some file credits it. */
  lemma DaysExactly(days: map<int, Entry>, files: seq<SessionFile>, day: int, now: int)
    ensures day in Recorded(days, files, |files|, now) <==> day in days || SomeCredits(files, day)
  {
    RecordedDays(days, files, |files|, now);
    assert files[..|files|] == files;
    assert day in Recorded(days, files, |files|, now) <==> day in days.Keys + CreditDays(files);
    hide Recorded, SummaryIsCredit, Credits, CreditedDay;
    forall f: SessionFile ensures Credits(f, day) <==> CreditedDay(f) == Some(day) {
      CreditsIs(f, day);
    }
    if day in CreditDays(files) {
      var f :| f in files && CreditedDay(f) == Some(day);
    }
  }

  /** Its entry then has what the last such file says, and the time of this ingest. */
  lemma EntryIs(days: map<int, Entry>, files: seq<SessionFile>, k: nat, day: int, now: int)
    requires k < |files| && Credits(files[k], day)
    requires forall j :: k < j < |files| ==> !Credits(files[j], day)
    ensures day in Recorded(days, files, |files|, now)
    ensures Recorded(days, files, |files|, now)[day] == Entry(day, files[k].name, files[k].content.value.1, now)
  {
    forall j | k <= j < |files| ensures Credits(files[j], day) <==> CreditedDay(files[j]) == Some(day) {
      CreditsIs(files[j], day);
    }
    hide SummaryIsCredit, Recorded;
    LastCreditStays(days, files, |files|, k, now);
  }

  /** What each file adds to the counts: one that cannot be read nothing, one without a date or a credit a
      rejection that says so. */
  lemma RejectedNext(files: seq<SessionFile>, n: nat)
    requires n < |files|
    ensures Scanned(files, 0) == 0 && Rejections(files, 0) == []
    ensures Scanned(files, n + 1) == Scanned(files, n) + if files[n].content.None? then 0 else 1
    ensures var f, before, after := files[n], Rejections(files, n), Rejections(files, n + 1);
            match f.content
            case None => after == before
            case Some((None, _)) => after == before + [Rejection(f.name, None, NoDate)]
            case Some((Some(day), summary)) =>
              after == if SummaryIsCredit(summary) == Credited then before
                       else before + [Rejection(f.name, Some(day), SummaryIsCredit(summary))]
  {
    hide SummaryIsCredit;
    assert Rejections(files, n) + [] == Rejections(files, n);
  }

  // One list of files is the other in some order, with or without repetition.
  ghost predicate SameFiles(files: seq<SessionFile>, others: seq<SessionFile>) {
    forall f :: f in files <==> f in others
  }

  /** Neither the order of the files, nor repeating them, nor ingesting them again changes the days. */
  lemma DaysAreASet(days: map<int, Entry>, files: seq<SessionFile>, others: seq<SessionFile>, now: int)
    requires SameFiles(files, others)
    ensures Recorded(days, files, |files|, now).Keys == Recorded(days, others, |others|, now).Keys
    ensures Recorded(Recorded(days, files, |files|, now), others, |others|, now).Keys ==
        Recorded(days, files, |files|, now).Keys
  {
    RecordedDays(days, files, |files|, now);
    RecordedDays(days, others, |others|, now);
    RecordedDays(Recorded(days, files, |files|, now), others, |others|, now);
    assert files[..|files|] == files && others[..|others|] == others;
    assert CreditDays(files) == CreditDays(others);
  }

  // No file from the k-th on, among the first n, credits the day.
  predicate Uncredited(files: seq<SessionFile>, k: nat, n: nat, day: int)
    requires n <= |files|
  {
    forall j :: k <= j < n ==> CreditedDay(files[j]) != Some(day)
  }

  /** A day no file credits keeps its old entry, or stays absent. */
  lemma {:induction false} UncreditedStays(days: map<int, Entry>, files: seq<SessionFile>, n: nat, day: int, now: int)
    requires n <= |files| && Uncredited(files, 0, n, day)
    ensures day in Recorded(days, files, n, now) <==> day in days
    ensures day in days ==> Recorded(days, files, n, now)[day] == days[day]
  {
    if n > 0 {
      UncreditedStays(days, files, n - 1, day, now);
    }
  }

  /** The entry of a credited day is that of the last file crediting it: not the first credit of the day,
      but the refreshed one. */
  lemma {:induction false} LastCreditStays(days: map<int, Entry>, files: seq<SessionFile>, n: nat, k: nat, now: int)
    requires k < n <= |files| && CreditedDay(files[k]).Some? && Uncredited(files, k + 1, n, CreditedDay(files[k]).value)
    ensures CreditedDay(files[k]).value in Recorded(days, files, n, now)
    ensures Recorded(days, files, n, now)[CreditedDay(files[k]).value] == EntryOf(files[k], now)
  {
    if k < n - 1 {
      LastCreditStays(days, files, n - 1, k, now);
      assert CreditedDay(files[n - 1]) != CreditedDay(files[k]);
    }
  }

  /** So the day keeps its first credit, as the comment there says, exactly when the last file crediting
      the day gives the same entry. */
  lemma FirstCreditKept(days: map<int, Entry>, files: seq<SessionFile>, first: nat, last: nat, now: int)
    requires first <= last < |files| && CreditedDay(files[first]).Some?
        && CreditedDay(files[last]) == CreditedDay(files[first])
    requires Uncredited(files, last + 1, |files|, CreditedDay(files[first]).value)
    ensures var day := CreditedDay(files[first]).value;
            && day in Recorded(days, files, |files|, now)
            && (Recorded(days, files, |files|, now)[day] == EntryOf(files[first], now) <==>
              EntryOf(files[last], now) == EntryOf(files[first], now))
  {
    LastCreditStays(days, files, |files|, last, now);
  }

  /** Two files of one day with different names: the second replaces the first. */
  lemma SecondCreditReplaces(days: map<int, Entry>, a: SessionFile, b: SessionFile, now: int)
    requires CreditedDay(a).Some? && CreditedDay(b) == CreditedDay(a) && a.name != b.name
    ensures var day := CreditedDay(a).value;
            && day in Recorded(days, [a, b], 2, now)
            && Recorded(days, [a, b], 2, now)[day] == EntryOf(b, now) != EntryOf(a, now)
  {
    FirstCreditKept(days, [a, b], 0, 1, now);
    LastCreditStays(days, [a, b], 2, 1, now);
  }

  lemma {:induction false} LastCrediting(files: seq<SessionFile>, n: nat, day: int) returns (k: int)
    requires n <= |files|
    ensures k == -1 ==> Uncredited(files, 0, n, day)
    ensures k != -1 ==> 0 <= k < n && CreditedDay(files[k]) == Some(day) && Uncredited(files, k + 1, n, day)
  {
    if n == 0 {
      k := -1;
    } else if CreditedDay(files[n - 1]) == Some(day) {
      k := n - 1;
    } else {
      k := LastCrediting(files, n - 1, day);
    }
  }

  /** Ingesting the same files again, at any later time, leaves what ingesting them only then would have:
      nothing changes but the time of ingest of the days they credit. */
  lemma IngestAgain(days: map<int, Entry>, files: seq<SessionFile>, now: int, later: int)
    ensures Recorded(Recorded(days, files, |files|, now), files, |files|, later) ==
        Recorded(days, files, |files|, later)
  {
    var once := Recorded(days, files, |files|, now);
    RecordedDays(days, files, |files|, now);
    RecordedDays(once, files, |files|, later);
    RecordedDays(days, files, |files|, later);
    hide Recorded, CreditedDay;
    var twice, only := Recorded(once, files, |files|, later), Recorded(days, files, |files|, later);
    assert twice.Keys == only.Keys;
    forall day | day in only ensures twice[day] == only[day] {
      var k := LastCrediting(files, |files|, day);
      if k == -1 {
        UncreditedStays(days, files, |files|, day, now);
        UncreditedStays(days, files, |files|, day, later);
        UncreditedStays(once, files, |files|, day, later);
      } else {
        LastCreditStays(days, files, |files|, k, later);
        LastCreditStays(once, files, |files|, k, later);
      }
    }
  }

  // Files crediting one day give it the same entry.
  ghost predicate Agreeing(files: seq<SessionFile>, now: int) {
    forall x, y :: x in files && y in files && CreditedDay(x).Some? && CreditedDay(y) == CreditedDay(x) ==>
      EntryOf(x, now) == EntryOf(y, now)
  }

  ghost predicate AnyFileOrder(days: map<int, Entry>, files: seq<SessionFile>, now: int) {
    forall others: seq<SessionFile> :: multiset(others) == multiset(files) ==>
      Recorded(days, others, |others|, now) == Recorded(days, files, |files|, now)
  }

  lemma SameEntry(days: map<int, Entry>, files: seq<SessionFile>, others: seq<SessionFile>, day: int, now: int)
    requires Agreeing(files, now) && SameFiles(files, others)
    requires day in Recorded(days, files, |files|, now) && day in Recorded(days, others, |others|, now)
    ensures Recorded(days, others, |others|, now)[day] == Recorded(days, files, |files|, now)[day]
  {
    hide Recorded, CreditedDay, EntryOf;
    var k := LastCrediting(files, |files|, day);
    var k' := LastCrediting(others, |others|, day);
    if k == -1 {
      forall j | 0 <= j < |others| ensures CreditedDay(others[j]) != Some(day) {
        assert others[j] in files;
      }
      UncreditedStays(days, files, |files|, day, now);
      UncreditedStays(days, others, |others|, day, now);
    } else {
      assert files[k] in files && files[k] in others;
      assert k' != -1 && others[k'] in files;
      LastCreditStays(days, files, |files|, k, now);
      LastCreditStays(days, others, |others|, k', now);
    }
  }

  lemma SameEntries(days: map<int, Entry>, files: seq<SessionFile>, others: seq<SessionFile>, now: int)
    requires Agreeing(files, now) && SameFiles(files, others)
    ensures Recorded(days, others, |others|, now) == Recorded(days, files, |files|, now)
  {
    DaysAreASet(days, files, others, now);
    hide *;
    var some, same := Recorded(days, files, |files|, now), Recorded(days, others, |others|, now);
    assert some.Keys == same.Keys;
    forall day | day in some ensures same[day] == some[day] {
      assert day in some.Keys;
      SameEntry(days, files, others, day, now);
    }
    SameMap(same, some);
  }

  lemma LastEntry(days: map<int, Entry>, rest: seq<SessionFile>, x: SessionFile, now: int)
    requires CreditedDay(x).Some?
    ensures CreditedDay(x).value in Recorded(days, rest + [x], |rest + [x]|, now)
    ensures Recorded(days, rest + [x], |rest + [x]|, now)[CreditedDay(x).value] == EntryOf(x, now)
  {
    LastCreditStays(days, rest + [x], |rest + [x]|, |rest|, now);
  }

  /** The files come in whatever order the directory lists them. Their entries are the same in every
      order exactly when any two files crediting one day give it the same entry. */
  lemma EntriesInAnyOrder(days: map<int, Entry>, files: seq<SessionFile>, now: int)
    ensures AnyFileOrder(days, files, now) <==> Agreeing(files, now)
  {
    if Agreeing(files, now) {
      forall others: seq<SessionFile> | multiset(others) == multiset(files)
        ensures Recorded(days, others, |others|, now) == Recorded(days, files, |files|, now)
      {
        forall f ensures f in files <==> f in others {
          assert f in files <==> f in multiset(files);
          assert f in others <==> f in multiset(others);
        }
        SameEntries(days, files, others, now);
      }
    } else {
      var x, y :| x in files && y in files && CreditedDay(x).Some? && CreditedDay(y) == CreditedDay(x)
          && EntryOf(x, now) != EntryOf(y, now);
      ConflictingEntries(days, files, x, y, now);
    }
  }

  lemma OrderAgrees(days: map<int, Entry>, files: seq<SessionFile>, others: seq<SessionFile>, now: int)
    requires AnyFileOrder(days, files, now) && multiset(others) == multiset(files)
    ensures Recorded(days, others, |others|, now) == Recorded(days, files, |files|, now)
  {
  }

  lemma ConflictingOrders(days: map<int, Entry>, files: seq<SessionFile>, rest: seq<SessionFile>, x: SessionFile,
      y: SessionFile, now: int)
    requires multiset(files) == multiset{x} + multiset{y} + multiset(rest)
    requires CreditedDay(x).Some? && CreditedDay(y) == CreditedDay(x) && EntryOf(x, now) != EntryOf(y, now)
    ensures !AnyFileOrder(days, files, now)
  {
    hide *;
    LastEntry(days, rest + [x], y, now);
    LastEntry(days, rest + [y], x, now);
    if AnyFileOrder(days, files, now) {
      OrderAgrees(days, files, rest + [x] + [y], now);
      OrderAgrees(days, files, rest + [y] + [x], now);
    }
  }

  lemma ConflictingEntries(days: map<int, Entry>, files: seq<SessionFile>, x: SessionFile, y: SessionFile, now: int)
    requires x in files && y in files && CreditedDay(x).Some? && CreditedDay(y) == CreditedDay(x)
        && EntryOf(x, now) != EntryOf(y, now)
    ensures !AnyFileOrder(days, files, now)
  {
    hide CreditedDay, EntryOf, AnyFileOrder;
    var i :| 0 <= i < |files| && files[i] == x;
    var j :| 0 <= j < |files| && files[j] == y;
    var others := TakeOut(files, i);
    var at :| 0 <= at < |others| && others[at] == y;
    var rest := TakeOut(others, at);
    ConflictingOrders(days, files, rest, x, y, now);
  }

  /******* The streak *******/

  // The loop's cursor: today, or the last credited day when today is not credited.
  ghost function Cursor(credited: set<int>, today: int): int {
    if today !in credited && credited != {} then Last(credited) else today
  }

  ghost predicate IsLast(s: set<int>, m: int) {
    m in s && forall x :: x in s ==> x <= m
  }

  lemma {:induction false} HasLast(s: set<int>)
    requires s != {}
    ensures exists m :: IsLast(s, m)
  {
    assert (forall x :: x !in s) ==> s == {};
    var x :| x in s;
    if s - {x} == {} {
      assert s == {x} && IsLast(s, x);
    } else {
      HasLast(s - {x});
      var m :| IsLast(s - {x}, m);
      assert forall y :: y in s ==> y == x || y in s - {x};
      assert IsLast(s, if x > m then x else m);
    }
  }

  ghost function Last(s: set<int>): (m: int)
    requires s != {}
    ensures IsLast(s, m)
  {
    HasLast(s);
    var m :| IsLast(s, m);
    m
  }

  ghost function UpToDay(credited: set<int>, d: int): set<int> {
    set x | x in credited && x <= d
  }

  // The longest run of credited days ending at the cursor: all of it credited, and not the day before.
  ghost predicate IsStreak(credited: set<int>, cursor: int, n: int) {
    && n >= 0
    && (forall d :: cursor - n < d <= cursor ==> d in credited)
    && cursor - n !in credited
  }

  datatype Stats = Stats(nCredited: nat, consecutive: nat, present: seq<int>, missing: seq<int>,
                         metConsecutive: bool, metDistinct: bool)

  function WindowStart(today: int, minDays: int): int {
    today - (minDays - 1)
  }

  // The days of the window that are, or are not, credited, in order.
  function WindowDays(credited: set<int>, start: int, n: nat, want: bool): seq<int> {
    if n == 0 then []
    else WindowDays(credited, start, n - 1, want) + if (start + n - 1 in credited) == want then [start + n - 1] else []
  }

  method StreakStats(credited: set<int>, today: int, minDays: int) returns (stats: Stats)
    ensures IsStreak(credited, Cursor(credited, today), stats.consecutive)
    ensures stats.nCredited == |credited|
    ensures stats.metConsecutive <==> stats.consecutive >= minDays
    ensures stats.metDistinct <==> stats.nCredited >= minDays
    ensures var n := if minDays > 0 then minDays else 0;
            stats.present == WindowDays(credited, WindowStart(today, minDays), n, true)
            && stats.missing == WindowDays(credited, WindowStart(today, minDays), n, false)
  {
    var consecutive := 0;
    var cursor := today;
    if today !in credited && credited != {} {
      HasLast(credited);
      cursor :| cursor in credited && forall d :: d in credited ==> d <= cursor;
      assert IsLast(credited, cursor);
    }
    ghost var start := cursor;
    while cursor in credited
      invariant consecutive >= 0 && cursor == start - consecutive
      invariant forall d :: cursor < d <= start ==> d in credited
      decreases UpToDay(credited, cursor)
    {
      assert cursor in UpToDay(credited, cursor) && cursor !in UpToDay(credited, cursor - 1);
      consecutive := consecutive + 1;
      cursor := cursor - 1;
    }
    var present, missing := [], [];
    var first := today - (minDays - 1);
    var n := if minDays > 0 then minDays else 0;
    for i := 0 to n
      invariant present == WindowDays(credited, first, i, true)
      invariant missing == WindowDays(credited, first, i, false)
    {
      if first + i in credited {
        present := present + [first + i];
      } else {
        missing := missing + [first + i];
      }
    }
    stats := Stats(|credited|, consecutive, present, missing, consecutive >= minDays, |credited| >= minDays);
  }

  /** A streak is determined by the credited days and its cursor. */
  lemma OneStreak(credited: set<int>, cursor: int, n: int, m: int)
    requires IsStreak(credited, cursor, n) && IsStreak(credited, cursor, m)
    ensures n == m
  {
    assert n < m ==> cursor - n in credited;
    assert m < n ==> cursor - m in credited;
  }

  /** A streak never exceeds the credited days, so the consecutive target implies the distinct one. */
  lemma {:induction false} StreakWithinCount(credited: set<int>, cursor: int, n: int)
    requires IsStreak(credited, cursor, n)
    ensures n <= |credited|
    decreases n
  {
    if n > 0 {
      var rest := credited - {cursor - n + 1};
      assert cursor - n + 1 in credited && |rest| == |credited| - 1;
      StreakWithinCount(rest, cursor, n - 1);
    }
  }

  lemma {:induction false} NoneMissing(credited: set<int>, start: int, n: nat)
    ensures WindowDays(credited, start, n, false) == [] <==> forall d :: start <= d < start + n ==> d in credited
  {
    if n > 0 {
      NoneMissing(credited, start, n - 1);
      assert (forall d :: start <= d < start + n ==> d in credited) <==>
             (forall d :: start <= d < start + (n - 1) ==> d in credited) && start + n - 1 in credited;
    }
  }

  /** Each day of the window is listed exactly once, as present or as missing. */
  lemma {:induction false} WindowSplits(credited: set<int>, start: int, n: nat, want: bool)
    ensures forall d :: d in WindowDays(credited, start, n, want) <==> start <= d < start + n && (d in credited) == want
    ensures |WindowDays(credited, start, n, true)| + |WindowDays(credited, start, n, false)| == n
  {
    if n > 0 {
      WindowSplits(credited, start, n - 1, want);
    }
  }

  ghost predicate Missing(credited: set<int>, today: int, minDays: int) {
    WindowDays(credited, WindowStart(today, minDays), if minDays > 0 then minDays else 0, false) != []
  }

  /** With today credited the target is met exactly when the window has no missing day. */
  lemma TargetIsFullWindow(credited: set<int>, today: int, minDays: int, n: int)
    requires today in credited && IsStreak(credited, Cursor(credited, today), n)
    ensures n >= minDays <==> !Missing(credited, today, minDays)
  {
    if minDays > 0 {
      NoneMissing(credited, WindowStart(today, minDays), minDays);
      if n < minDays {
        assert WindowStart(today, minDays) <= today - n < WindowStart(today, minDays) + minDays;
      }
    }
  }

  /** In general the two readings agree exactly when today is credited, there is no target, or one of the
      target's days up to the cursor is not credited. Otherwise a run that ended at the last credited day,
      however long ago or in the future, meets the target of a window with days missing. */
  lemma TargetAgainstWindow(credited: set<int>, today: int, minDays: int, n: int)
    requires IsStreak(credited, Cursor(credited, today), n)
    ensures (n >= minDays <==> !Missing(credited, today, minDays)) <==>
            || today in credited || minDays <= 0
            || exists d :: Cursor(credited, today) - minDays < d <= Cursor(credited, today) && d !in credited
  {
    var cursor := Cursor(credited, today);
    assert n < minDays ==> cursor - n !in credited && cursor - minDays < cursor - n <= cursor;
    if today in credited {
      TargetIsFullWindow(credited, today, minDays, n);
    } else if minDays > 0 {
      NoneMissing(credited, WindowStart(today, minDays), minDays);
      assert WindowStart(today, minDays) <= today < WindowStart(today, minDays) + minDays;
    }
  }

  // So many days in a row, up to the last.
  function Block(last: int, n: nat): (days: set<int>)
    ensures forall d :: d in days <==> last - n < d <= last
  {
    if n == 0 then {} else Block(last, n - 1) + {last - n + 1}
  }

  /** A run of the target's length that ended any number of days ago still meets it, with today missing. */
  lemma StaleStreakMeets(today: int, ago: nat, minDays: nat)
    requires ago > 0 && minDays > 0
    ensures IsStreak(Block(today - ago, minDays), Cursor(Block(today - ago, minDays), today), minDays)
    ensures Missing(Block(today - ago, minDays), today, minDays)
  {
    var credited := Block(today - ago, minDays);
    assert today - ago in credited && today !in credited;
    LastIs(credited, today - ago);
    NoneMissing(credited, WindowStart(today, minDays), minDays);
    assert WindowStart(today, minDays) <= today < WindowStart(today, minDays) + minDays;
  }

  lemma LastIs(s: set<int>, m: int)
    requires IsLast(s, m)
    ensures s != {} && Last(s) == m
  {
  }

  /** Crediting today lengthens the streak by one when yesterday was the last credited day; after a gap
      it starts again at one, however long the streak shown before. */
  lemma CreditingToday(credited: set<int>, today: int, last: int, n: int, after: int)
    requires IsLast(credited, last) && last < today
    requires IsStreak(credited, Cursor(credited, today), n)
    requires IsStreak(credited + {today}, Cursor(credited + {today}, today), after)
    ensures after == if last == today - 1 then n + 1 else 1
    ensures after < n <==> last < today - 1 && n > 1
  {
    LastIs(credited, last);
    assert Cursor(credited, today) == last && Cursor(credited + {today}, today) == today;
    assert last - n !in credited && (n > 0 ==> last in credited);
    if last == today - 1 {
      assert IsStreak(credited + {today}, today, n + 1);
      OneStreak(credited + {today}, today, after, n + 1);
    } else {
      assert IsStreak(credited + {today}, today, 1);
      OneStreak(credited + {today}, today, after, 1);
    }
  }
}
