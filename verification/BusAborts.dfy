/** When a handler ends the publish that called it, and with it every publish that one is part of. */
module BusAborts {
  import opened BusModel
  import opened BusLaws

  /******* An abort comes from a handler that aborts *******/

  // Some attempt between the two, numbered by its place in the log, has an Abort in its script.
  ghost predicate AbortTried(code: Code, w: World, v: World) {
    exists k :: |w.log| <= k < |v.log| && Abort in code.script(v.log[k].registration.handler, k + 1)
  }

  lemma Later(code: Code, w: World, u: World, v: World, x: World)
    requires w.log <= u.log && v.log <= x.log && AbortTried(code, u, v)
    ensures AbortTried(code, w, x)
  {
    var k :| |u.log| <= k < |v.log| && Abort in code.script(v.log[k].registration.handler, k + 1);
    assert x.log[k] == v.log[k];
  }

  lemma {:induction false} ActionAborts(code: Code, w: World, actions: seq<Action>, n: nat, depth: nat)
    requires n <= |actions| && Acted(code, w, actions, n, depth).1 == Aborted
    ensures Abort in actions || AbortTried(code, w, Acted(code, w, actions, n, depth).0)
    decreases depth, 1, n
  {
    hide AbortTried, Published;
    var (v, outcome) := Acted(code, w, actions, n - 1, depth);
    if outcome == Aborted {
      ActionAborts(code, w, actions, n - 1, depth);
    } else if actions[n - 1].Publish? {
      PublishAborts(code, v, actions[n - 1].event, depth);
      var u := Did(code, v, actions[n - 1], depth).0;
      Later(code, w, v, u, u);
    }
  }

  /** A publish that is aborted has tried, itself or through the publishes of its handlers, some handler
      that aborts. */
  lemma {:induction false} PublishAborts(code: Code, w: World, event: EventType, depth: nat)
    requires Published(code, w, event, depth).1 == Aborted
    ensures AbortTried(code, w, Published(code, w, event, depth).0)
    decreases depth, 0, 0
  {
    var s, u := Lookup(w.handlers, event), Entered(w, event, Running);
    hide Dispatched, AbortTried, Lookup;
    DispatchAborts(code, u, |w.book|, s, |s|, depth - 1);
    var v := Dispatched(code, u, |w.book|, s, |s|, depth - 1).0;
    Later(code, w, u, v, v);
  }

  lemma {:induction false} DispatchAborts(code: Code, w: World, id: nat, s: seq<Registration>, n: nat, depth: nat)
    requires n <= |s| && Dispatched(code, w, id, s, n, depth).1 == Aborted
    ensures AbortTried(code, w, Dispatched(code, w, id, s, n, depth).0)
    decreases depth, 3, n
  {
    hide AbortTried, Called;
    var (v, outcome) := Dispatched(code, w, id, s, n - 1, depth);
    if outcome == Aborted {
      DispatchAborts(code, w, id, s, n - 1, depth);
    } else {
      var u := Called(code, v, id, s[n - 1], depth).0;
      CallAborts(code, v, id, s[n - 1], depth);
      Later(code, w, v, u, u);
    }
  }

  lemma {:induction false} CallAborts(code: Code, w: World, id: nat, r: Registration, depth: nat)
    requires Called(code, w, id, r, depth).1 == Aborted
    ensures AbortTried(code, w, Called(code, w, id, r, depth).0)
    decreases depth, 2, 0
  {
    HandleAborts(code, w, Tries(w, id, r), Tries(w, id, r), id, r, depth);
  }

  // The handler's own attempt is at the end of the log of x, and w is what was before it.
  lemma {:induction false} HandleAborts(code: Code, w: World, x: World, v: World, id: nat, r: Registration, depth: nat)
    requires x.log == w.log + [Attempt(id, r)] && x.log <= v.log
    requires Handled(code, v, id, r.handler, |w.log| + 1, depth).1 == Aborted
    ensures AbortTried(code, w, Handled(code, v, id, r.handler, |w.log| + 1, depth).0)
    decreases depth, 1, |code.script(r.handler, |w.log| + 1)| + 1
  {
    var actions := code.script(r.handler, |w.log| + 1);
    var u := Acted(code, v, actions, |actions|, depth).0;
    hide Acted;
    ActionAborts(code, v, actions, |actions|, depth);
    assert u.log[|w.log|] == x.log[|w.log|] == Attempt(id, r);
    if Abort !in actions {
      Later(code, w, v, u, u);
    }
  }

  lemma {:induction false} AwaitsAbort(code: Code, w: World, id: nat, s: seq<Registration>, n: nat, depth: nat,
      meanwhile: nat -> seq<Turn>)
    requires n <= |s| && Awaited(code, w, id, s, n, depth, meanwhile).1 == Aborted
    ensures AbortTried(code, w, Awaited(code, w, id, s, n, depth, meanwhile).0)
    decreases n
  {
    hide AbortTried, Turned, Handled;
    var (v, outcome) := Awaited(code, w, id, s, n - 1, depth, meanwhile);
    if outcome == Aborted {
      AwaitsAbort(code, w, id, s, n - 1, depth, meanwhile);
    } else {
      var r, tried := s[n - 1], Tries(v, id, s[n - 1]);
      var met := if r.isAsync then Turned(code, tried, meanwhile(n - 1), |meanwhile(n - 1)|, depth) else tried;
      HandleAborts(code, v, tried, met, id, r, depth);
      var u := AwaitedOne(code, v, id, r, depth, meanwhile(n - 1)).0;
      Later(code, w, v, u, u);
    }
  }

  lemma PublishAsyncAborts(code: Code, w: World, event: EventType, depth: nat, meanwhile: nat -> seq<Turn>)
    requires PublishedAsync(code, w, event, depth, meanwhile).1 == Aborted
    ensures AbortTried(code, w, PublishedAsync(code, w, event, depth, meanwhile).0)
  {
    var s, u := Lookup(w.handlers, event), Entered(w, event, Running);
    hide Awaited, AbortTried, Lookup;
    AwaitsAbort(code, u, |w.book|, s, |s|, depth - 1, meanwhile);
    var v := Awaited(code, u, |w.book|, s, |s|, depth - 1, meanwhile).0;
    Later(code, w, u, v, v);
  }

  // The body of the i-th handler, called when everything before it has been attempted, ends with an abort.
  predicate AbortsAt(code: Code, w: World, id: nat, s: seq<Registration>, i: nat, depth: nat)
    requires i < |s|
  {
    && !s[i].isAsync && Dispatched(code, w, id, s, i, depth).1 == Normal
    && var v := Dispatched(code, w, id, s, i, depth).0;
       var actions := code.script(s[i].handler, |v.log| + 1);
       Acted(code, Tries(v, id, s[i]), actions, |actions|, depth).1 == Aborted
  }

  lemma {:induction false} DispatchCut(code: Code, w: World, id: nat, s: seq<Registration>, n: nat, depth: nat)
    requires n <= |s|
    ensures Dispatched(code, w, id, s, n, depth).1 == Aborted <==>
            exists i: nat :: i < n && AbortsAt(code, w, id, s, i, depth)
  {
    hide Acted;
    if n > 0 {
      DispatchCut(code, w, id, s, n - 1, depth);
      DeliveredEnds(code, Dispatched(code, w, id, s, n - 1, depth).0, id, s[n - 1], depth);
      hide Delivered;
      if Dispatched(code, w, id, s, n - 1, depth).1 == Aborted {
        assert exists i: nat :: i < n - 1 && AbortsAt(code, w, id, s, i, depth);
      } else {
        assert Dispatched(code, w, id, s, n, depth).1 == Aborted <==> AbortsAt(code, w, id, s, n - 1, depth);
      }
    }
  }

  lemma DeliveredEnds(code: Code, w: World, id: nat, r: Registration, depth: nat)
    ensures var actions := code.script(r.handler, |w.log| + 1);
            Delivered(code, w, id, r, depth).1 == Aborted <==>
            !r.isAsync && Acted(code, Tries(w, id, r), actions, |actions|, depth).1 == Aborted
  {
    hide Acted;
    assert !r.isAsync ==> Delivered(code, w, id, r, depth) == Called(code, w, id, r, depth);
  }

  /** A publish within the recursion limit is aborted exactly when the body of one of the synchronous handlers
      it found ends with an abort, and has then attempted everything up to that one and nothing after it. */
  lemma PublishCutWhere(code: Code, w: World, event: EventType, depth: nat)
    requires Sound(w)
    ensures var (v, outcome) := Published(code, w, event, depth + 1);
            var id, s, u := |w.book|, Lookup(w.handlers, event), Entered(w, event, Running);
            && (outcome == Aborted <==> exists i: nat :: i < |s| && AbortsAt(code, u, id, s, i, depth))
            && forall i: nat :: i < |s| && AbortsAt(code, u, id, s, i, depth) ==> CutOff(v, id, s, i + 1)
  {
    var id, s, u := |w.book|, Lookup(w.handlers, event), Entered(w, event, Running);
    EnterKeeps(w, event);
    PublishedIs(code, w, event, depth + 1);
    hide Published, Dispatched, Lookup, Sound, UnderWay, CutOff, AbortsAt, Quiet, Tried;
    DispatchCut(code, u, id, s, |s|, depth);
    forall i: nat | i < |s| && AbortsAt(code, u, id, s, i, depth)
      ensures CutOff(Dispatched(code, u, id, s, |s|, depth).0, id, s, i + 1)
    {
      CutThere(code, u, id, s, i, depth);
    }
  }

  lemma CutThere(code: Code, w: World, id: nat, s: seq<Registration>, i: nat, depth: nat)
    requires Sound(w) && UnderWay(w, id, s, 0) && i < |s| && AbortsAt(code, w, id, s, i, depth)
    ensures CutOff(Dispatched(code, w, id, s, |s|, depth).0, id, s, i + 1)
  {
    hide Sound, UnderWay, CutOff, Tried, Apart, Acted;
    DispatchKeeps(code, w, id, s, i, depth);
    var v := Dispatched(code, w, id, s, i, depth).0;
    DeliveredEnds(code, v, id, s[i], depth);
    hide Delivered;
    DeliverKeeps(code, v, id, s, i, depth);
    assert Dispatched(code, w, id, s, i + 1, depth) == Delivered(code, v, id, s[i], depth);
    DispatchStops(code, w, id, s, i + 1, |s|, depth);
  }

  ghost predicate NeverAborts(code: Code) {
    forall h: Handler, n: nat :: Abort !in code.script(h, n)
  }

  /** If no handler aborts, whatever else they do, every publish within the recursion limit attempts
      exactly the registrations it found. */
  lemma NoAbortNoCut(code: Code, w: World, event: EventType, depth: nat)
    requires Sound(w) && NeverAborts(code) && depth > 0
    ensures var (v, outcome) := Published(code, w, event, depth);
            && outcome == Normal
            && Tried(v.log, |w.book|) == Lookup(w.handlers, event)
  {
    hide Sound, Quiet, CutOff, Tried, Lookup, Published;
    PublishKeeps(code, w, event, depth);
    if Published(code, w, event, depth).1 == Aborted {
      PublishAborts(code, w, event, depth);
    }
  }

  lemma NoAbortNoCutAsync(code: Code, w: World, event: EventType, depth: nat, meanwhile: nat -> seq<Turn>)
    requires Sound(w) && NeverAborts(code) && depth > 0
    ensures var (v, outcome) := PublishedAsync(code, w, event, depth, meanwhile);
            && outcome == Normal
            && Tried(v.log, |w.book|) == Lookup(w.handlers, event)
  {
    hide Sound, Steady, CutOff, Tried, Lookup, PublishedAsync;
    PublishAsyncKeeps(code, w, event, depth, meanwhile);
    if PublishedAsync(code, w, event, depth, meanwhile).1 == Aborted {
      PublishAsyncAborts(code, w, event, depth, meanwhile);
    }
  }

  lemma ResumeFacts(code: Code, w: World, id: nat, depth: nat)
    requires id in w.frames && w.frames[id].next < |w.frames[id].snapshot|
    ensures var v, f := Resumed(code, w, id, depth), w.frames[id];
            var u := Marked(w.(frames := w.frames - {id}), id, Running);
            var outcome := Called(code, u, id, f.snapshot[f.next], depth).1;
            && (NeverAborts(code) ==> outcome == Normal)
            && (Sound(w) ==>
                  && Sound(v) && Steady(w, v) && id < |v.book|
                  && Tried(v.log, id) == f.snapshot[..f.next + 1]
                  && v.book[id] == Record(f.snapshot, if outcome == Aborted then Cut else Suspended))
  {
    var f, u := w.frames[id], Marked(w.(frames := w.frames - {id}), id, Running);
    if Sound(w) {
      ResumeKeeps(code, w, id, depth);
    }
    hide Sound, Steady, Tried, Called, Shelved;
    if Called(code, u, id, f.snapshot[f.next], depth).1 == Aborted {
      CallAborts(code, u, id, f.snapshot[f.next], depth);
    }
  }

  // What PublishKeeps says of a sound bus, and what handlers that never abort mean for any.
  lemma PublishFacts(code: Code, w: World, event: EventType, depth: nat)
    ensures depth == 0 ==> Published(code, w, event, depth) == (w, Raised)
    ensures var (v, outcome) := Published(code, w, event, depth);
            && (outcome == Raised <==> depth == 0)
            && (NeverAborts(code) && depth > 0 ==> outcome == Normal)
            && (Sound(w) ==> Sound(v) && Quiet(w, v))
            && (Sound(w) && outcome == Normal ==> Tried(v.log, |w.book|) == Lookup(w.handlers, event))
            && (Sound(w) && outcome == Aborted ==>
                  exists i :: 0 < i <= |Lookup(w.handlers, event)| && CutOff(v, |w.book|, Lookup(w.handlers, event), i))
  {
    hide Sound, Quiet, Tried, CutOff, Lookup, Dispatched;
    if Sound(w) {
      PublishKeeps(code, w, event, depth);
    }
    if Published(code, w, event, depth).1 == Aborted {
      PublishAborts(code, w, event, depth);
    }
  }

  lemma PublishAsyncFacts(code: Code, w: World, event: EventType, depth: nat, meanwhile: nat -> seq<Turn>)
    ensures depth == 0 ==> PublishedAsync(code, w, event, depth, meanwhile) == (w, Raised)
    ensures var (v, outcome) := PublishedAsync(code, w, event, depth, meanwhile);
            && (outcome == Raised <==> depth == 0)
            && (NeverAborts(code) && depth > 0 ==> outcome == Normal)
            && (Sound(w) ==> Sound(v) && Steady(w, v))
            && (Sound(w) && outcome == Normal ==> Tried(v.log, |w.book|) == Lookup(w.handlers, event))
            && (Sound(w) && outcome == Aborted ==>
                  exists i :: 0 < i <= |Lookup(w.handlers, event)| && CutOff(v, |w.book|, Lookup(w.handlers, event), i))
  {
    hide Sound, Steady, Tried, CutOff, Lookup, Awaited;
    if Sound(w) {
      PublishAsyncKeeps(code, w, event, depth, meanwhile);
    }
    if PublishedAsync(code, w, event, depth, meanwhile).1 == Aborted {
      PublishAsyncAborts(code, w, event, depth, meanwhile);
    }
  }

  lemma NoAbortNoCutTurn(code: Code, w: World, id: nat, depth: nat)
    requires Sound(w) && NeverAborts(code) && id in w.frames && w.frames[id].next < |w.frames[id].snapshot|
    ensures id in Resumed(code, w, id, depth).frames
  {
    var f, v := w.frames[id], Marked(w.(frames := w.frames - {id}), id, Running);
    hide Sound, Tried, Called;
    if Called(code, v, id, f.snapshot[f.next], depth).1 == Aborted {
      CallAborts(code, v, id, f.snapshot[f.next], depth);
    }
  }

  lemma NoAbortInBody(code: Code, w: World, actions: seq<Action>, depth: nat)
    requires NeverAborts(code) && Abort !in actions
    ensures Acted(code, w, actions, |actions|, depth).1 != Aborted
  {
    hide Acted;
    if Acted(code, w, actions, |actions|, depth).1 == Aborted {
      ActionAborts(code, w, actions, |actions|, depth);
    }
  }

  /******* Handlers that do not publish *******/

  predicate Flat(actions: seq<Action>) {
    forall a :: a in actions ==> !a.Publish?
  }

  // How the first n actions of such a body end: with the first that raises or aborts.
  function Ending(actions: seq<Action>, n: nat): Outcome
    requires n <= |actions|
  {
    if n == 0 then Normal
    else if Ending(actions, n - 1) != Normal then Ending(actions, n - 1)
    else match actions[n - 1]
      case Raise => Raised
      case Abort => Aborted
      case _ => Normal
  }

  /** A body that does not publish ends as its first raise or abort says, and leaves every publish alone. */
  lemma {:induction false} FlatActed(code: Code, w: World, actions: seq<Action>, n: nat, depth: nat)
    requires Flat(actions) && n <= |actions|
    ensures var (v, outcome) := Acted(code, w, actions, n, depth);
            && outcome == Ending(actions, n)
            && v == w.(handlers := v.handlers)
  {
    if n > 0 {
      FlatActed(code, w, actions, n - 1, depth);
      assert actions[n - 1] in actions;
    }
  }

  lemma ActionFacts(code: Code, w: World, actions: seq<Action>, depth: nat)
    ensures var (v, outcome) := Acted(code, w, actions, |actions|, depth);
            && (NeverAborts(code) && Abort !in actions ==> outcome != Aborted)
            && (Flat(actions) ==> outcome == Ending(actions, |actions|) && v == w.(handlers := v.handlers))
            && (Sound(w) ==> Sound(v) && Quiet(w, v))
  {
    hide Acted, NeverAborts, Flat, Ending, Sound, Quiet;
    if NeverAborts(code) && Abort !in actions {
      NoAbortInBody(code, w, actions, depth);
    }
    if Flat(actions) {
      FlatActed(code, w, actions, |actions|, depth);
    }
    if Sound(w) {
      ActedQuiet(code, w, actions, |actions|, depth);
    }
  }

  // Attempting this registration, as the number-th attempt, ends the publish.
  predicate Ends(code: Code, r: Registration, number: nat) {
    !r.isAsync && Ending(code.script(r.handler, number), |code.script(r.handler, number)|) == Aborted
  }

  predicate FlatCalls(code: Code, s: seq<Registration>, base: nat) {
    forall k :: 0 <= k < |s| && !s[k].isAsync ==> Flat(code.script(s[k].handler, base + k + 1))
  }

  function Attempts(id: nat, s: seq<Registration>): (log: seq<Attempt>)
    ensures |log| == |s| && forall k :: 0 <= k < |s| ==> log[k] == Attempt(id, s[k])
  {
    seq(|s|, k requires 0 <= k < |s| => Attempt(id, s[k]))
  }

  // One of the first n registrations ends the publish.
  predicate CutBy(code: Code, s: seq<Registration>, base: nat, n: nat)
    requires n <= |s|
  {
    exists k :: 0 <= k < n && Ends(code, s[k], base + k + 1)
  }

  // How many of the first n are attempted: those up to the first that ends the publish.
  function Reached(code: Code, s: seq<Registration>, base: nat, n: nat): (m: nat)
    requires n <= |s|
    ensures m <= n && (!CutBy(code, s, base, n) ==> m == n)
    ensures CutBy(code, s, base, n) ==>
              m > 0 && Ends(code, s[m - 1], base + m) && !CutBy(code, s, base, m - 1)
  {
    if n == 0 then 0 else if CutBy(code, s, base, n - 1) then Reached(code, s, base, n - 1) else n
  }

  lemma FlatDelivered(code: Code, w: World, id: nat, r: Registration, depth: nat)
    requires id < |w.book| && (!r.isAsync ==> Flat(code.script(r.handler, |w.log| + 1)))
    ensures var (v, outcome) := Delivered(code, w, id, r, depth);
            && v.log == w.log + [Attempt(id, r)]
            && outcome == (if Ends(code, r, |w.log| + 1) then Aborted else Normal)
            && v.book == if outcome == Aborted then w.book[id := w.book[id].(state := Cut)] else w.book
  {
    if !r.isAsync {
      var actions := code.script(r.handler, |w.log| + 1);
      FlatActed(code, Tries(w, id, r), actions, |actions|, depth);
      hide Acted, Ending, Flat;
      assert Called(code, w, id, r, depth) == Handled(code, Tries(w, id, r), id, r.handler, |w.log| + 1, depth);
    }
  }

  lemma {:induction false} FlatDispatched(code: Code, w: World, id: nat, s: seq<Registration>, n: nat, depth: nat)
    requires id < |w.book| && n <= |s| && FlatCalls(code, s, |w.log|)
    ensures var (v, outcome) := Dispatched(code, w, id, s, n, depth);
            && outcome == (if CutBy(code, s, |w.log|, n) then Aborted else Normal)
            && v.log == w.log + Attempts(id, s[..Reached(code, s, |w.log|, n)])
            && v.book == (if outcome == Aborted then w.book[id := w.book[id].(state := Cut)] else w.book)
  {
    hide Delivered, Ends, Flat;
    if n > 0 {
      FlatDispatched(code, w, id, s, n - 1, depth);
      var (v, outcome) := Dispatched(code, w, id, s, n - 1, depth);
      if outcome == Normal {
        FlatDelivered(code, v, id, s[n - 1], depth);
      }
    }
  }

  /** When the synchronous handlers found do not publish, a publish within the recursion limit is aborted
      exactly when one of them aborts; it has then attempted everything up to the first that does, and
      otherwise everything. */
  lemma PublishCutExactly(code: Code, w: World, event: EventType, depth: nat)
    requires depth > 0 && FlatCalls(code, Lookup(w.handlers, event), |w.log|)
    ensures var (v, outcome) := Published(code, w, event, depth);
            var id, s := |w.book|, Lookup(w.handlers, event);
            && outcome == (if CutBy(code, s, |w.log|, |s|) then Aborted else Normal)
            && v.log == w.log + Attempts(id, s[..Reached(code, s, |w.log|, |s|)])
            && v.book == w.book + [Record(s, if outcome == Aborted then Cut else Finished)]
  {
    var id, s, u := |w.book|, Lookup(w.handlers, event), Entered(w, event, Running);
    hide Dispatched, Lookup, FlatCalls, CutBy, Reached, Attempts;
    FlatDispatched(code, u, id, s, |s|, depth - 1);
    assert u.book[id := Record(s, Cut)] == w.book + [Record(s, Cut)];
    assert u.book[id := Record(s, Finished)] == w.book + [Record(s, Finished)];
  }

  /******* Asynchronous publishes of handlers that always end alike *******/

  // No handler publishes, and each ends the same way at every call.
  ghost predicate Uniform(code: Code, ends: Handler -> Outcome) {
    forall h: Handler, n: nat ::
      Flat(code.script(h, n)) && Ending(code.script(h, n), |code.script(h, n)|) == ends(h)
  }

  predicate AbortAmong(s: seq<Registration>, ends: Handler -> Outcome, n: nat)
    requires n <= |s|
  {
    exists k :: 0 <= k < n && ends(s[k].handler) == Aborted
  }

  // How many of the first n are attempted: those up to the first that aborts.
  function Awaitable(s: seq<Registration>, ends: Handler -> Outcome, n: nat): (m: nat)
    requires n <= |s|
    ensures m <= n && (!AbortAmong(s, ends, n) ==> m == n)
    ensures AbortAmong(s, ends, n) ==> m > 0 && ends(s[m - 1].handler) == Aborted && !AbortAmong(s, ends, m - 1)
  {
    if n == 0 then 0 else if AbortAmong(s, ends, n - 1) then Awaitable(s, ends, n - 1) else n
  }

  lemma UniformHandled(code: Code, ends: Handler -> Outcome, w: World, id: nat, h: Handler, number: nat, depth: nat)
    requires Uniform(code, ends)
    ensures Handled(code, w, id, h, number, depth).1 == if ends(h) == Aborted then Aborted else Normal
  {
    var actions := code.script(h, number);
    assert Flat(actions);
    FlatActed(code, w, actions, |actions|, depth);
    hide Acted, Ending, Flat;
  }

  lemma {:induction false} UniformAwaited(code: Code, ends: Handler -> Outcome, w: World, id: nat, s: seq<Registration>,
      n: nat, depth: nat, meanwhile: nat -> seq<Turn>)
    requires Uniform(code, ends) && n <= |s| && Sound(w) && UnderWay(w, id, s, 0)
    ensures var (v, outcome) := Awaited(code, w, id, s, n, depth, meanwhile);
            && (outcome == Aborted <==> AbortAmong(s, ends, n))
            && Tried(v.log, id) == s[..Awaitable(s, ends, n)]
    decreases n
  {
    hide Uniform, Sound, UnderWay, CutOff, SteadyBut, Tried, AwaitedOne;
    UnderWayTried(w, id, s, 0);
    if n > 0 {
      UniformAwaited(code, ends, w, id, s, n - 1, depth, meanwhile);
      AwaitsKeep(code, w, id, s, n - 1, depth, meanwhile);
      var (v, outcome) := Awaited(code, w, id, s, n - 1, depth, meanwhile);
      if outcome == Normal {
        UniformNext(code, ends, v, id, s, n, depth, meanwhile(n - 1));
      }
    }
  }

  lemma UniformNext(code: Code, ends: Handler -> Outcome, w: World, id: nat, s: seq<Registration>, n: nat, depth: nat,
      turns: seq<Turn>)
    requires Uniform(code, ends) && 0 < n <= |s| && Sound(w) && UnderWay(w, id, s, n - 1)
    ensures var (v, outcome) := AwaitedOne(code, w, id, s[n - 1], depth, turns);
            outcome == (if ends(s[n - 1].handler) == Aborted then Aborted else Normal) && Tried(v.log, id) == s[..n]
  {
    hide *;
    AwaitKeeps(code, w, id, s, n - 1, depth, turns);
    var (v, outcome) := AwaitedOne(code, w, id, s[n - 1], depth, turns);
    UniformAwaitedOne(code, ends, w, id, s[n - 1], depth, turns);
    if outcome == Normal { UnderWayTried(v, id, s, n); } else { CutOffTried(v, id, s, n); }
  }

  lemma UnderWayTried(w: World, id: nat, s: seq<Registration>, i: nat)
    requires UnderWay(w, id, s, i)
    ensures i <= |s| && Tried(w.log, id) == s[..i]
  {
  }

  lemma CutOffTried(w: World, id: nat, s: seq<Registration>, i: nat)
    requires CutOff(w, id, s, i)
    ensures i <= |s| && Tried(w.log, id) == s[..i]
  {
  }

  lemma UniformAwaitedOne(code: Code, ends: Handler -> Outcome, w: World, id: nat, r: Registration, depth: nat,
      turns: seq<Turn>)
    requires Uniform(code, ends)
    ensures AwaitedOne(code, w, id, r, depth, turns).1 == if ends(r.handler) == Aborted then Aborted else Normal
  {
    hide Uniform, Handled, Turned;
    var tried := Tries(w, id, r);
    var met := if r.isAsync then Turned(code, tried, turns, |turns|, depth) else tried;
    UniformHandled(code, ends, met, id, r.handler, |w.log| + 1, depth);
  }

  /** An asynchronous publish of such handlers is aborted exactly when one of them aborts, and has then
      attempted everything up to the first that does, whatever the event loop runs meanwhile. */
  lemma AsyncCutExactly(code: Code, ends: Handler -> Outcome, w: World, event: EventType, depth: nat,
      meanwhile: nat -> seq<Turn>)
    requires Sound(w) && depth > 0 && Uniform(code, ends)
    ensures var (v, outcome) := PublishedAsync(code, w, event, depth, meanwhile);
            var s := Lookup(w.handlers, event);
            && (outcome == Aborted <==> AbortAmong(s, ends, |s|))
            && Tried(v.log, |w.book|) == s[..Awaitable(s, ends, |s|)]
  {
    var id, s, u := |w.book|, Lookup(w.handlers, event), Entered(w, event, Running);
    hide *;
    EnterKeeps(w, event);
    UniformAwaited(code, ends, u, id, s, |s|, depth - 1, meanwhile);
    AwaitsKeep(code, u, id, s, |s|, depth - 1, meanwhile);
    AsyncEnds(code, w, event, depth, meanwhile);
  }

  lemma AsyncEnds(code: Code, w: World, event: EventType, depth: nat, meanwhile: nat -> seq<Turn>)
    requires depth > 0
    ensures var s := Lookup(w.handlers, event);
            var r := Awaited(code, Entered(w, event, Running), |w.book|, s, |s|, depth - 1, meanwhile);
            var q := PublishedAsync(code, w, event, depth, meanwhile);
            q.1 == r.1 && q.0.log == r.0.log
  {
    hide Awaited;
  }

  /******* A bus whose first handler aborts *******/

  function First(last: Action): Code {
    Code((h, n) => if h == 0 then [last] else [], h => false, true)
  }

  function Two(last: Action): World {
    Subscribed(First(last), Subscribed(First(last), EMPTY, "bar", 0), "bar", 1)
  }

  /** Two handlers of one event: when the first raises the second is called, and when it aborts it is not. */
  lemma AbortSilencesTheRest(last: Action, depth: nat)
    requires depth > 0 && (last == Raise || last == Abort)
    ensures var a, b := Registration(0, false), Registration(1, false);
            var (v, outcome) := Published(First(last), Two(last), "bar", depth);
            && Lookup(Two(last).handlers, "bar") == [a, b]
            && outcome == (if last == Abort then Aborted else Normal)
            && v.log == if last == Abort then [Attempt(0, a)] else [Attempt(0, a), Attempt(0, b)]
  {
    var s := [Registration(0, false), Registration(1, false)];
    TwoRegistered(last);
    FirstEnds(last);
    PublishCutExactly(First(last), Two(last), "bar", depth);
    hide *;
    OfTwo(First(last), s);
    AttemptsOfTwo(s[0], s[1], if last == Abort then 1 else 2);
  }

  lemma AttemptsOfTwo(a: Registration, b: Registration, n: nat)
    requires n == 1 || n == 2
    ensures [] + Attempts(0, [a, b][..n]) == if n == 1 then [Attempt(0, a)] else [Attempt(0, a), Attempt(0, b)]
  {
  }

  lemma TwoRegistered(last: Action)
    ensures Lookup(Two(last).handlers, "bar") == [Registration(0, false), Registration(1, false)]
    ensures Two(last).log == [] && Two(last).book == []
  {
  }

  lemma OfTwo(code: Code, s: seq<Registration>)
    requires |s| == 2 && !Ends(code, s[1], 2)
    ensures CutBy(code, s, 0, 2) <==> Ends(code, s[0], 1)
    ensures Reached(code, s, 0, 2) == if Ends(code, s[0], 1) then 1 else 2
  {
    hide Ends;
    assert Ends(code, s[0], 0 + 0 + 1) ==> CutBy(code, s, 0, 1) && CutBy(code, s, 0, 2);
    assert !CutBy(code, s, 0, 0);
  }

  lemma FirstEnds(last: Action)
    requires last == Raise || last == Abort
    ensures Ends(First(last), Registration(0, false), 1) <==> last == Abort
    ensures !Ends(First(last), Registration(1, false), 2)
    ensures FlatCalls(First(last), [Registration(0, false), Registration(1, false)], 0)
  {
    var actions := First(last).script(0, 1);
    assert actions == [last] && Ending(actions, 1) == if last == Abort then Aborted else Raised;
    assert First(last).script(1, 2) == [];
  }
}
