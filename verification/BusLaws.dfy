/** What the bus keeps, whatever its handlers do, and when a handler ends a publish. */
module BusLaws {
  import opened BusModel

  // The registrations a publish has attempted, in order.
  function Tried(log: seq<Attempt>, id: nat): seq<Registration> {
    if log == [] then []
    else
      var last := log[|log| - 1];
      Tried(log[..|log| - 1], id) + if last.publish == id then [last.registration] else []
  }

  lemma TriedNext(log: seq<Attempt>, a: Attempt, id: nat)
    ensures Tried(log + [a], id) == Tried(log, id) + if a.publish == id then [a.registration] else []
  {
    assert (log + [a])[..|log|] == log;
  }

  lemma {:induction false} NotTried(log: seq<Attempt>, id: nat)
    requires forall k :: 0 <= k < |log| ==> log[k].publish != id
    ensures Tried(log, id) == []
  {
    if log != [] {
      NotTried(log[..|log| - 1], id);
    }
  }

  // A finished publish has attempted exactly what it found, once each and in order; any other the first
  // part of that, and an aborted one at least one of it.
  predicate Kept(r: Record, tried: seq<Registration>) {
    && tried <= r.found
    && (r.state == Finished ==> tried == r.found)
    && (r.state == Cut ==> tried != [])
  }

  predicate Matches(f: Frame, r: Record, tried: seq<Registration>) {
    f.next <= |f.snapshot| && r == Record(f.snapshot, Suspended) && tried == f.snapshot[..f.next]
  }

  ghost predicate Sound(w: World) {
    && (forall k :: 0 <= k < |w.log| ==> w.log[k].publish < |w.book|)
    && (forall id :: 0 <= id < |w.book| ==> Kept(w.book[id], Tried(w.log, id)))
    && (forall id :: id in w.frames ==> id < |w.book| && Matches(w.frames[id], w.book[id], Tried(w.log, id)))
  }

  // A publish under way has attempted the first i of the registrations it found.
  ghost predicate UnderWay(w: World, id: nat, s: seq<Registration>, i: nat) {
    i <= |s| && id < |w.book| && w.book[id] == Record(s, Running) && id !in w.frames && Tried(w.log, id) == s[..i]
  }

  ghost predicate CutOff(w: World, id: nat, s: seq<Registration>, i: nat) {
    i <= |s| && id < |w.book| && w.book[id] == Record(s, Cut) && id !in w.frames && Tried(w.log, id) == s[..i]
  }

  // Nothing has become of the publish.
  ghost predicate Same(w: World, v: World, id: nat)
    requires id < |w.book| <= |v.book|
  {
    v.book[id] == w.book[id] && Tried(v.log, id) == Tried(w.log, id) && (id in v.frames <==> id in w.frames)
  }

  // Nothing has become of any publish but one, and no suspended one has gone on.
  ghost predicate Apart(w: World, v: World, own: nat) {
    && |w.book| <= |v.book| && v.frames == w.frames
    && forall id: nat :: id < |w.book| && id != own ==> Same(w, v, id)
  }

  // Nothing has become of any publish.
  ghost predicate Quiet(w: World, v: World) {
    && |w.book| <= |v.book| && v.frames == w.frames
    && forall id: nat :: id < |w.book| ==> Same(w, v, id)
  }

  /******* The steps of a dispatch *******/

  lemma TriesKeeps(w: World, id: nat, s: seq<Registration>, i: nat)
    requires Sound(w) && UnderWay(w, id, s, i) && i < |s|
    ensures var v := Tries(w, id, s[i]); Sound(v) && UnderWay(v, id, s, i + 1) && Apart(w, v, id)
  {
    var v := Tries(w, id, s[i]);
    forall other: nat ensures Tried(v.log, other) == Tried(w.log, other) + if other == id then [s[i]] else [] {
      TriedNext(w.log, Attempt(id, s[i]), other);
    }
    hide Tried;
    assert s[..i + 1] == s[..i] + [s[i]];
    assert forall other: nat :: other != id ==> Tried(v.log, other) == Tried(w.log, other);
  }

  lemma CutKeeps(w: World, id: nat, s: seq<Registration>, i: nat)
    requires Sound(w) && UnderWay(w, id, s, i) && i > 0
    ensures var v := Marked(w, id, Cut); Sound(v) && CutOff(v, id, s, i) && Apart(w, v, id)
  {
  }

  lemma FinishKeeps(w: World, id: nat, s: seq<Registration>)
    requires Sound(w) && UnderWay(w, id, s, |s|)
    ensures var v := Marked(w, id, Finished);
            Sound(v) && v.book[id] == Record(s, Finished) && Tried(v.log, id) == s && Apart(w, v, id)
  {
    assert s[..|s|] == s;
  }

  lemma EnterKeeps(w: World, event: EventType)
    requires Sound(w)
    ensures var v := Entered(w, event, Running);
            Sound(v) && UnderWay(v, |w.book|, Lookup(w.handlers, event), 0) && Quiet(w, v)
  {
    NotTried(w.log, |w.book|);
    var s := Lookup(w.handlers, event);
    assert s[..0] == [];
  }

  lemma QuietThen(w: World, v: World, u: World)
    requires Quiet(w, v) && Quiet(v, u)
    ensures Quiet(w, u)
  {
    hide Tried;
    forall id: nat | id < |w.book| ensures Same(w, u, id) {
      assert Same(w, v, id) && Same(v, u, id);
    }
  }

  lemma ApartThen(w: World, v: World, u: World, own: nat)
    requires Apart(w, v, own) && Apart(v, u, own)
    ensures Apart(w, u, own)
  {
    hide Tried;
    forall id: nat | id < |w.book| && id != own ensures Same(w, u, id) {
      assert Same(w, v, id) && Same(v, u, id);
    }
  }

  lemma QuietIsApart(w: World, v: World, own: nat)
    requires Quiet(w, v)
    ensures Apart(w, v, own)
  {
  }

  // What concerns only a publish that had not begun concerns none that had.
  lemma NewIsQuiet(w: World, v: World, u: World)
    requires Quiet(w, v) && Apart(v, u, |w.book|)
    ensures Quiet(w, u)
  {
    hide Tried;
    forall id: nat | id < |w.book| ensures Same(w, u, id) {
      assert Same(w, v, id) && Same(v, u, id);
    }
  }

  lemma QuietUnderWay(w: World, v: World, id: nat, s: seq<Registration>, i: nat)
    requires Quiet(w, v) && UnderWay(w, id, s, i)
    ensures UnderWay(v, id, s, i)
  {
    assert Same(w, v, id);
  }

  lemma StaysQuiet(w: World, v: World)
    requires Sound(w) && v.log == w.log && v.book == w.book && v.frames == w.frames
    ensures Sound(v) && Quiet(w, v)
  {
  }

  /** Whatever a handler's body does, no publish that had begun before is disturbed. */
  lemma {:induction false} ActedQuiet(code: Code, w: World, actions: seq<Action>, n: nat, depth: nat)
    requires Sound(w) && n <= |actions|
    ensures var v := Acted(code, w, actions, n, depth).0; Sound(v) && Quiet(w, v)
    decreases depth, 1, n
  {
    hide Sound, Quiet, Did;
    StaysQuiet(w, w);
    if n > 0 {
      ActedQuiet(code, w, actions, n - 1, depth);
      var (v, outcome) := Acted(code, w, actions, n - 1, depth);
      if outcome == Normal {
        DidQuiet(code, v, actions[n - 1], depth);
        QuietThen(w, v, Did(code, v, actions[n - 1], depth).0);
      }
    }
  }

  lemma {:induction false} DidQuiet(code: Code, w: World, action: Action, depth: nat)
    requires Sound(w)
    ensures var v := Did(code, w, action, depth).0; Sound(v) && Quiet(w, v)
    decreases depth, 1, 0
  {
    hide Sound, Quiet, Published;
    if action.Publish? {
      PublishKeeps(code, w, action.event, depth);
    } else {
      StaysQuiet(w, Did(code, w, action, depth).0);
    }
  }

  /** Whatever its handlers do (subscribe, unsubscribe, clear, publish again, raise), a publish that is not
      aborted attempts exactly the registrations present at its start, once each and in order; one that is
      aborted the first part of them, up to the aborting handler. It disturbs no publish begun before. */
  lemma {:induction false} PublishKeeps(code: Code, w: World, event: EventType, depth: nat)
    requires Sound(w)
    ensures var (v, outcome) := Published(code, w, event, depth);
            var id, s := |w.book|, Lookup(w.handlers, event);
            && Sound(v) && Quiet(w, v)
            && (outcome == Raised <==> depth == 0)
            && (outcome == Normal ==> id < |v.book| && v.book[id] == Record(s, Finished) && Tried(v.log, id) == s)
            && (outcome == Aborted ==> exists i :: 0 < i <= |s| && CutOff(v, id, s, i))
    decreases depth, 0, 0
  {
    hide Sound, Quiet, Apart, UnderWay, CutOff, Dispatched, Tried, Lookup;
    if depth == 0 {
      StaysQuiet(w, w);
    } else {
      var id, s, u := |w.book|, Lookup(w.handlers, event), Entered(w, event, Running);
      EnterKeeps(w, event);
      DispatchKeeps(code, u, id, s, |s|, depth - 1);
      var (v, outcome) := Dispatched(code, u, id, s, |s|, depth - 1);
      if outcome == Normal {
        FinishKeeps(v, id, s);
        ApartThen(u, v, Marked(v, id, Finished), id);
        NewIsQuiet(w, u, Marked(v, id, Finished));
        MarkedHas(v, id, s, Finished);
      } else {
        NewIsQuiet(w, u, v);
      }
    }
  }

  lemma MarkedHas(w: World, id: nat, s: seq<Registration>, state: State)
    requires UnderWay(w, id, s, |s|)
    ensures id < |Marked(w, id, state).book|
  {
  }

  lemma {:induction false} DispatchKeeps(code: Code, w: World, id: nat, s: seq<Registration>, n: nat, depth: nat)
    requires Sound(w) && UnderWay(w, id, s, 0) && n <= |s|
    ensures var (v, outcome) := Dispatched(code, w, id, s, n, depth);
            && Sound(v) && Apart(w, v, id) && outcome != Raised
            && (outcome == Normal ==> UnderWay(v, id, s, n))
            && (outcome == Aborted ==> exists i :: 0 < i <= n && CutOff(v, id, s, i))
    decreases depth, 3, n
  {
    hide Sound, Quiet, Apart, UnderWay, CutOff, Delivered, Tried;
    if n == 0 {
      StaysQuiet(w, w);
      QuietIsApart(w, w, id);
    } else {
      DispatchKeeps(code, w, id, s, n - 1, depth);
      var (v, outcome) := Dispatched(code, w, id, s, n - 1, depth);
      if outcome == Normal {
        DeliverKeeps(code, v, id, s, n - 1, depth);
        ApartThen(w, v, Delivered(code, v, id, s[n - 1], depth).0, id);
      }
    }
  }

  // One delivery more.
  lemma DispatchedNext(code: Code, w: World, id: nat, s: seq<Registration>, i: nat, depth: nat, v: World)
    requires i < |s| && Dispatched(code, w, id, s, i, depth) == (v, Normal)
    ensures var tried, h := Tries(v, id, s[i]), s[i].handler;
            && |tried.log| == |v.log| + 1
            && Dispatched(code, w, id, s, i + 1, depth) ==
               if s[i].isAsync then (Scheduled(code, tried, h), Normal)
               else Handled(code, tried, id, h, |tried.log|, depth)
  {
    hide Handled, Scheduled;
    assert Dispatched(code, w, id, s, i + 1, depth) == Delivered(code, v, id, s[i], depth);
    assert !s[i].isAsync ==> Delivered(code, v, id, s[i], depth) == Called(code, v, id, s[i], depth);
  }

  lemma PublishedIs(code: Code, w: World, event: EventType, depth: nat)
    requires depth > 0
    ensures var id, s, u := |w.book|, Lookup(w.handlers, event), Entered(w, event, Running);
            var (v, outcome) := Dispatched(code, u, id, s, |s|, depth - 1);
            && Dispatched(code, u, id, s, 0, depth - 1) == (u, Normal)
            && (outcome == Normal ==> Published(code, w, event, depth) == (Marked(v, id, Finished), Normal))
            && (outcome == Aborted ==> Published(code, w, event, depth) == (v, Aborted))
  {
  }

  // The same for an asynchronous publish.
  lemma AwaitedNext(code: Code, w: World, id: nat, s: seq<Registration>, i: nat, depth: nat,
      meanwhile: nat -> seq<Turn>, v: World)
    requires i < |s| && Awaited(code, w, id, s, i, depth, meanwhile) == (v, Normal)
    ensures var tried, turns := Tries(v, id, s[i]), meanwhile(i);
            var met := if s[i].isAsync then Turned(code, tried, turns, |turns|, depth) else tried;
            && |tried.log| == |v.log| + 1
            && Awaited(code, w, id, s, i + 1, depth, meanwhile) ==
               Handled(code, met, id, s[i].handler, |tried.log|, depth)
  {
    hide Handled, Turned;
  }

  lemma PublishedAsyncIs(code: Code, w: World, event: EventType, depth: nat, meanwhile: nat -> seq<Turn>)
    requires depth > 0
    ensures var id, s, u := |w.book|, Lookup(w.handlers, event), Entered(w, event, Running);
            var (v, outcome) := Awaited(code, u, id, s, |s|, depth - 1, meanwhile);
            && Awaited(code, u, id, s, 0, depth - 1, meanwhile) == (u, Normal)
            && (outcome == Normal ==>
                  PublishedAsync(code, w, event, depth, meanwhile) == (Marked(v, id, Finished), Normal))
            && (outcome == Aborted ==> PublishedAsync(code, w, event, depth, meanwhile) == (v, Aborted))
  {
  }

  // A dispatch that has been aborted stays as it is.
  lemma {:induction false} DispatchStops(code: Code, w: World, id: nat, s: seq<Registration>, n: nat, m: nat,
      depth: nat)
    requires n <= m <= |s| && Dispatched(code, w, id, s, n, depth).1 != Normal
    ensures Dispatched(code, w, id, s, m, depth) == Dispatched(code, w, id, s, n, depth)
    decreases m
  {
    hide Delivered;
    if n < m {
      DispatchStops(code, w, id, s, n, m - 1, depth);
    }
  }

  lemma {:induction false} AwaitsStop(code: Code, w: World, id: nat, s: seq<Registration>, n: nat, m: nat, depth: nat,
      meanwhile: nat -> seq<Turn>)
    requires n <= m <= |s| && Awaited(code, w, id, s, n, depth, meanwhile).1 != Normal
    ensures Awaited(code, w, id, s, m, depth, meanwhile) == Awaited(code, w, id, s, n, depth, meanwhile)
    decreases m
  {
    hide AwaitedOne;
    if n < m {
      AwaitsStop(code, w, id, s, n, m - 1, depth, meanwhile);
    }
  }

  lemma {:induction false} ActionsStop(code: Code, w: World, actions: seq<Action>, n: nat, m: nat, depth: nat)
    requires n <= m <= |actions| && Acted(code, w, actions, n, depth).1 != Normal
    ensures Acted(code, w, actions, m, depth) == Acted(code, w, actions, n, depth)
    decreases m
  {
    hide Did;
    if n < m {
      ActionsStop(code, w, actions, n, m - 1, depth);
    }
  }

  lemma {:induction false} DeliverKeeps(code: Code, w: World, id: nat, s: seq<Registration>, i: nat, depth: nat)
    requires Sound(w) && UnderWay(w, id, s, i) && i < |s|
    ensures var (v, outcome) := Delivered(code, w, id, s[i], depth);
            && Sound(v) && Apart(w, v, id) && outcome != Raised
            && (outcome == Normal ==> UnderWay(v, id, s, i + 1))
            && (outcome == Aborted ==> CutOff(v, id, s, i + 1))
    decreases depth, 2, 1
  {
    hide Sound, Quiet, Apart, UnderWay, CutOff, Called, Tried, Tries;
    if s[i].isAsync {
      var v := Tries(w, id, s[i]);
      TriesKeeps(w, id, s, i);
      StaysQuiet(v, Scheduled(code, v, s[i].handler));
      QuietUnderWay(v, Scheduled(code, v, s[i].handler), id, s, i + 1);
      QuietIsApart(v, Scheduled(code, v, s[i].handler), id);
      ApartThen(w, v, Scheduled(code, v, s[i].handler), id);
    } else {
      CallKeeps(code, w, id, s, i, depth);
    }
  }

  lemma {:induction false} CallKeeps(code: Code, w: World, id: nat, s: seq<Registration>, i: nat, depth: nat)
    requires Sound(w) && UnderWay(w, id, s, i) && i < |s|
    ensures var (v, outcome) := Called(code, w, id, s[i], depth);
            && Sound(v) && Apart(w, v, id) && outcome != Raised
            && (outcome == Normal ==> UnderWay(v, id, s, i + 1))
            && (outcome == Aborted ==> CutOff(v, id, s, i + 1))
    decreases depth, 2, 0
  {
    hide Sound, Quiet, Apart, UnderWay, CutOff, Handled, Tried, Tries;
    TriesKeeps(w, id, s, i);
    HandleKeeps(code, Tries(w, id, s[i]), id, s, i + 1, s[i].handler, |w.log| + 1, depth);
    ApartThen(w, Tries(w, id, s[i]), Called(code, w, id, s[i], depth).0, id);
  }

  /** A handler that raises does not end the publish that called it; one that aborts does, with
      everything up to it attempted and nothing after it. */
  lemma {:induction false} HandleKeeps(code: Code, w: World, id: nat, s: seq<Registration>, i: nat, h: Handler,
      number: nat, depth: nat)
    requires Sound(w) && UnderWay(w, id, s, i) && i > 0
    ensures var actions := code.script(h, number);
            var (v, outcome) := Handled(code, w, id, h, number, depth);
            && Sound(v) && Apart(w, v, id)
            && outcome == (if Acted(code, w, actions, |actions|, depth).1 == Aborted then Aborted else Normal)
            && (outcome == Normal ==> UnderWay(v, id, s, i))
            && (outcome == Aborted ==> CutOff(v, id, s, i))
    decreases depth, 1, |code.script(h, number)| + 1
  {
    hide Sound, Quiet, Apart, UnderWay, CutOff, Acted, Tried, Marked;
    var actions := code.script(h, number);
    ActedQuiet(code, w, actions, |actions|, depth);
    var (v, outcome) := Acted(code, w, actions, |actions|, depth);
    QuietUnderWay(w, v, id, s, i);
    QuietIsApart(w, v, id);
    if outcome == Aborted {
      CutKeeps(v, id, s, i);
      ApartThen(w, v, Marked(v, id, Cut), id);
    }
  }

  /******* Asynchronous publishes *******/

  // Nothing has become of a publish that was not suspended, and a suspended one has kept its snapshot.
  ghost predicate Steady(w: World, v: World) {
    && |w.book| <= |v.book|
    && forall id: nat :: id < |w.book| ==> v.book[id].found == w.book[id].found && (id !in w.frames ==> Same(w, v, id))
  }

  ghost predicate SteadyBut(w: World, v: World, own: nat) {
    && |w.book| <= |v.book|
    && forall id: nat :: id < |w.book| && id != own ==>
         v.book[id].found == w.book[id].found && (id !in w.frames ==> Same(w, v, id))
  }

  lemma SteadyThen(w: World, v: World, u: World)
    requires Steady(w, v) && Steady(v, u)
    ensures Steady(w, u)
  {
    hide Tried;
    forall id: nat | id < |w.book| && id !in w.frames ensures Same(w, u, id) {
      assert Same(w, v, id) && Same(v, u, id);
    }
  }

  lemma SteadyButThen(w: World, v: World, u: World, own: nat)
    requires SteadyBut(w, v, own) && SteadyBut(v, u, own)
    ensures SteadyBut(w, u, own)
  {
    hide Tried;
    forall id: nat | id < |w.book| && id != own && id !in w.frames ensures Same(w, u, id) {
      assert Same(w, v, id) && Same(v, u, id);
    }
  }

  lemma QuietIsSteady(w: World, v: World)
    requires Quiet(w, v)
    ensures Steady(w, v)
  {
    hide Tried;
    forall id: nat | id < |w.book| ensures v.book[id].found == w.book[id].found && Same(w, v, id) {
      assert Same(w, v, id);
    }
  }

  lemma ApartIsSteadyBut(w: World, v: World, own: nat)
    requires Apart(w, v, own)
    ensures SteadyBut(w, v, own)
  {
    hide Tried;
    forall id: nat | id < |w.book| && id != own ensures v.book[id].found == w.book[id].found && Same(w, v, id) {
      assert Same(w, v, id);
    }
  }

  lemma SteadyIsBut(w: World, v: World, own: nat)
    requires Steady(w, v)
    ensures SteadyBut(w, v, own)
  {
  }

  lemma NewIsSteady(w: World, v: World, u: World)
    requires Steady(w, v) && SteadyBut(v, u, |w.book|)
    ensures Steady(w, u)
  {
    hide Tried;
    forall id: nat | id < |w.book|
      ensures u.book[id].found == w.book[id].found && (id !in w.frames ==> Same(w, u, id))
    {
      assert v.book[id].found == w.book[id].found;
      if id !in w.frames { assert Same(w, v, id) && Same(v, u, id); }
    }
  }

  lemma SteadyUnderWay(w: World, v: World, id: nat, s: seq<Registration>, i: nat)
    requires Steady(w, v) && UnderWay(w, id, s, i)
    ensures UnderWay(v, id, s, i)
  {
    assert Same(w, v, id);
  }

  // A suspended publish is taken up.
  lemma TakenUp(w: World, id: nat) returns (v: World)
    requires Sound(w) && id in w.frames
    ensures v == Marked(w.(frames := w.frames - {id}), id, Running)
    ensures Sound(v) && UnderWay(v, id, w.frames[id].snapshot, w.frames[id].next)
    ensures |v.book| == |w.book| && v.frames == w.frames - {id} && v.log == w.log
    ensures forall other: nat :: other < |w.book| && other != id ==> Same(w, v, other)
  {
    v := Marked(w.(frames := w.frames - {id}), id, Running);
    hide Tried;
  }

  // What a publish that was taken up, and is then as it is in v, means for the others.
  lemma OthersSteady(w: World, v: World, u: World, id: nat)
    requires id in w.frames && id < |w.book| == |v.book|
    requires forall other: nat :: other < |w.book| && other != id ==> Same(w, v, other)
    requires Apart(v, u, id) && u.book[id].found == w.book[id].found
    ensures Steady(w, u)
  {
    hide Tried;
    forall other: nat | other < |w.book| && other != id
      ensures u.book[other].found == w.book[other].found && Same(w, u, other)
    {
      assert Same(w, v, other) && Same(v, u, other);
    }
  }

  lemma ShelvedKeeps(w: World, id: nat, s: seq<Registration>, i: nat)
    requires Sound(w) && UnderWay(w, id, s, i)
    ensures var v := Shelved(w, id, Frame(s, i));
            && Sound(v) && |v.book| == |w.book| && v.log == w.log && v.book == w.book[id := Record(s, Suspended)]
            && v.frames == w.frames[id := Frame(s, i)]
  {
    hide Tried;
  }

  lemma ShelvedSteady(w: World, u: World, id: nat, s: seq<Registration>, i: nat)
    requires id < |w.book| && Steady(w, u) && id < |u.book| && u.book[id].found == s && id in w.frames
    ensures Steady(w, Shelved(u, id, Frame(s, i)))
  {
    hide Tried;
    var v := Shelved(u, id, Frame(s, i));
    forall other: nat | other < |w.book| && other !in w.frames ensures Same(w, v, other) {
      assert Same(w, u, other);
    }
  }

  /** Each delivery of a suspended publish attempts the next registration it found; it is then suspended
      again, or at its end if the handler aborts it. When none is left it ends with all of them attempted.
      No publish but suspended ones goes on. */
  lemma ResumeKeeps(code: Code, w: World, id: nat, depth: nat)
    requires Sound(w) && id in w.frames
    ensures var v, f := Resumed(code, w, id, depth), w.frames[id];
            var u := Marked(w.(frames := w.frames - {id}), id, Running);
            && Sound(v) && Steady(w, v)
            && id < |v.book| && v.book[id].found == f.snapshot
            && (f.next == |f.snapshot| ==> v.book[id].state == Finished && Tried(v.log, id) == f.snapshot)
            && (f.next < |f.snapshot| ==>
                  && Tried(v.log, id) == f.snapshot[..f.next + 1]
                  && v.book[id].state ==
                     if Called(code, u, id, f.snapshot[f.next], depth).1 == Aborted then Cut else Suspended)
  {
    var f := w.frames[id];
    var v := TakenUp(w, id);
    assert f.next <= |f.snapshot| && id < |w.book| && w.book[id].found == f.snapshot;
    hide Sound, Apart, UnderWay, CutOff, Called, Tried, Marked, Shelved, Steady;
    if f.next == |f.snapshot| {
      FinishKeeps(v, id, f.snapshot);
      OthersSteady(w, v, Marked(v, id, Finished), id);
    } else {
      CallKeeps(code, v, id, f.snapshot, f.next, depth);
      var (u, outcome) := Called(code, v, id, f.snapshot[f.next], depth);
      CalledHas(u, outcome, id, f.snapshot, f.next + 1);
      ApartGrows(v, u, id);
      OthersSteady(w, v, u, id);
      if outcome != Aborted {
        ShelvedKeeps(u, id, f.snapshot, f.next + 1);
        ShelvedSteady(w, u, id, f.snapshot, f.next + 1);
      }
    }
  }

  lemma ResumedIs(code: Code, w: World, id: nat, depth: nat)
    requires id in w.frames && w.frames[id].next < |w.frames[id].snapshot|
    ensures var f, u := w.frames[id], Marked(w.(frames := w.frames - {id}), id, Running);
            var (x, outcome) := Called(code, u, id, f.snapshot[f.next], depth);
            Resumed(code, w, id, depth) ==
            if outcome == Aborted then x else Shelved(x, id, Frame(f.snapshot, f.next + 1))
  {
    hide Called, Shelved;
  }

  lemma CalledIs(code: Code, w: World, id: nat, r: Registration, depth: nat)
    ensures Called(code, w, id, r, depth) ==
            Handled(code, Tries(w, id, r), id, r.handler, |Tries(w, id, r).log|, depth)
  {
    hide Handled;
  }

  lemma ApartGrows(w: World, v: World, id: nat)
    requires Apart(w, v, id)
    ensures |w.book| <= |v.book|
  {
  }

  lemma CalledHas(u: World, outcome: Outcome, id: nat, s: seq<Registration>, i: nat)
    requires i <= |s| && (outcome == Normal ==> UnderWay(u, id, s, i)) && (outcome == Aborted ==> CutOff(u, id, s, i))
    requires outcome != Raised
    ensures id < |u.book| && u.book[id] == Record(s, if outcome == Aborted then Cut else Running)
    ensures Tried(u.log, id) == s[..i] && id !in u.frames
  {
  }

  lemma StartKeeps(w: World, event: EventType)
    requires Sound(w)
    ensures var v, s := Started(w, event), Lookup(w.handlers, event);
            && Sound(v) && Steady(w, v)
            && v.book == w.book + [Record(s, Suspended)] && v.log == w.log
            && v.frames == w.frames[|w.book| := Frame(s, 0)]
  {
    var id, s, u := |w.book|, Lookup(w.handlers, event), Entered(w, event, Running);
    EnterKeeps(w, event);
    ShelvedKeeps(u, id, s, 0);
    hide Tried, Shelved;
    assert u.book[id := Record(s, Suspended)] == w.book + [Record(s, Suspended)];
    var v := Started(w, event);
    forall other: nat | other < |w.book| ensures Same(w, v, other) {
      assert Same(w, u, other);
    }
  }

  /** Whatever turns the event loop takes, with any number of asynchronous publishes overlapping, every
      finished one has attempted exactly what it found and every other the first part of it. */
  lemma {:induction false} TurnsKeep(code: Code, w: World, turns: seq<Turn>, n: nat, depth: nat)
    requires Sound(w) && n <= |turns|
    ensures var v := Turned(code, w, turns, n, depth); Sound(v) && Steady(w, v)
  {
    hide Sound, Quiet, Steady, Started, Resumed, Acted;
    StaysQuiet(w, w);
    QuietIsSteady(w, w);
    if n > 0 {
      TurnsKeep(code, w, turns, n - 1, depth);
      var v := Turned(code, w, turns, n - 1, depth);
      match turns[n - 1]
      case Begin(event) =>
        StartKeeps(v, event);
        SteadyThen(w, v, Started(v, event));
      case Resume(id) =>
        ResumeAny(code, v, id, depth);
        SteadyThen(w, v, Resumed(code, v, id, depth));
      case Act(actions) =>
        ActedQuiet(code, v, actions, |actions|, depth);
        QuietIsSteady(v, Acted(code, v, actions, |actions|, depth).0);
        SteadyThen(w, v, Acted(code, v, actions, |actions|, depth).0);
    }
  }

  lemma ResumeAny(code: Code, w: World, id: nat, depth: nat)
    requires Sound(w)
    ensures var v := Resumed(code, w, id, depth); Sound(v) && Steady(w, v)
  {
    hide Sound, Steady;
    if id in w.frames {
      ResumeKeeps(code, w, id, depth);
    } else {
      StaysQuiet(w, w);
      QuietIsSteady(w, w);
    }
  }

  /** An asynchronous publish likewise, whatever the event loop runs at each of its awaits. */
  lemma PublishAsyncKeeps(code: Code, w: World, event: EventType, depth: nat, meanwhile: nat -> seq<Turn>)
    requires Sound(w)
    ensures var (v, outcome) := PublishedAsync(code, w, event, depth, meanwhile);
            var id, s := |w.book|, Lookup(w.handlers, event);
            && Sound(v) && Steady(w, v)
            && (outcome == Raised <==> depth == 0)
            && (outcome == Normal ==> id < |v.book| && v.book[id] == Record(s, Finished) && Tried(v.log, id) == s)
            && (outcome == Aborted ==> exists i :: 0 < i <= |s| && CutOff(v, id, s, i))
  {
    hide Sound, Quiet, Apart, UnderWay, CutOff, Awaited, Tried, Lookup, Steady, SteadyBut;
    StaysQuiet(w, w);
    QuietIsSteady(w, w);
    if depth > 0 {
      var id, s, u := |w.book|, Lookup(w.handlers, event), Entered(w, event, Running);
      EnterKeeps(w, event);
      QuietIsSteady(w, u);
      AwaitsKeep(code, u, id, s, |s|, depth - 1, meanwhile);
      var (v, outcome) := Awaited(code, u, id, s, |s|, depth - 1, meanwhile);
      if outcome == Normal {
        FinishKeeps(v, id, s);
        ApartIsSteadyBut(v, Marked(v, id, Finished), id);
        SteadyButThen(u, v, Marked(v, id, Finished), id);
        NewIsSteady(w, u, Marked(v, id, Finished));
        MarkedHas(v, id, s, Finished);
      } else {
        NewIsSteady(w, u, v);
      }
    }
  }

  lemma {:induction false} AwaitsKeep(code: Code, w: World, id: nat, s: seq<Registration>, n: nat, depth: nat,
      meanwhile: nat -> seq<Turn>)
    requires Sound(w) && UnderWay(w, id, s, 0) && n <= |s|
    ensures var (v, outcome) := Awaited(code, w, id, s, n, depth, meanwhile);
            && Sound(v) && SteadyBut(w, v, id) && outcome != Raised
            && (outcome == Normal ==> UnderWay(v, id, s, n))
            && (outcome == Aborted ==> exists i :: 0 < i <= n && CutOff(v, id, s, i))
    decreases n
  {
    hide Sound, SteadyBut, UnderWay, CutOff, AwaitedOne, Tried;
    if n == 0 {
      StaysQuiet(w, w);
      QuietIsSteady(w, w);
      SteadyIsBut(w, w, id);
    } else {
      AwaitsKeep(code, w, id, s, n - 1, depth, meanwhile);
      var (v, outcome) := Awaited(code, w, id, s, n - 1, depth, meanwhile);
      if outcome == Normal {
        AwaitKeeps(code, v, id, s, n - 1, depth, meanwhile(n - 1));
        SteadyButThen(w, v, AwaitedOne(code, v, id, s[n - 1], depth, meanwhile(n - 1)).0, id);
      }
    }
  }

  lemma AwaitKeeps(code: Code, w: World, id: nat, s: seq<Registration>, i: nat, depth: nat, turns: seq<Turn>)
    requires Sound(w) && UnderWay(w, id, s, i) && i < |s|
    ensures var (v, outcome) := AwaitedOne(code, w, id, s[i], depth, turns);
            && Sound(v) && SteadyBut(w, v, id) && outcome != Raised
            && (outcome == Normal ==> UnderWay(v, id, s, i + 1))
            && (outcome == Aborted ==> CutOff(v, id, s, i + 1))
  {
    hide Sound, Quiet, Apart, UnderWay, CutOff, Handled, Tried, Tries, Steady, SteadyBut, Turned;
    var tried := Tries(w, id, s[i]);
    TriesKeeps(w, id, s, i);
    ApartIsSteadyBut(w, tried, id);
    var met := if s[i].isAsync then Turned(code, tried, turns, |turns|, depth) else tried;
    if s[i].isAsync {
      TurnsKeep(code, tried, turns, |turns|, depth);
      SteadyUnderWay(tried, met, id, s, i + 1);
      SteadyIsBut(tried, met, id);
      SteadyButThen(w, tried, met, id);
    }
    HandleKeeps(code, met, id, s, i + 1, s[i].handler, |w.log| + 1, depth);
    var v := Handled(code, met, id, s[i].handler, |w.log| + 1, depth).0;
    ApartIsSteadyBut(met, v, id);
    SteadyButThen(w, met, v, id);
  }
}
