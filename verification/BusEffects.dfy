/** What a publish and a handler's body do to the bus: what they schedule, the registrations they leave. */
module BusEffects {
  import opened BusModel
  import opened BusLaws
  import opened BusAborts

  /******* Tasks *******/

  // The coroutine handlers among attempts.
  function Coroutines(attempts: seq<Attempt>): multiset<Handler> {
    if attempts == [] then multiset{}
    else
      var last := attempts[|attempts| - 1].registration;
      Coroutines(attempts[..|attempts| - 1]) + if last.isAsync then multiset{last.handler} else multiset{}
  }

  lemma CoroutinesOne(attempts: seq<Attempt>, a: Attempt)
    ensures Coroutines(attempts + [a]) ==
            Coroutines(attempts) + if a.registration.isAsync then multiset{a.registration.handler} else multiset{}
  {
    assert (attempts + [a])[..|attempts|] == attempts;
  }

  lemma NoCoroutines()
    ensures Coroutines([]) == multiset{}
  {
  }

  lemma {:induction false} CoroutinesBoth(a: seq<Attempt>, b: seq<Attempt>)
    ensures Coroutines(a + b) == Coroutines(a) + Coroutines(b)
  {
    NoCoroutines();
    hide Coroutines;
    if b == [] {
      assert a + b == a;
    } else {
      var before, last := b[..|b| - 1], b[|b| - 1];
      CoroutinesBoth(a, before);
      CoroutinesOne(a + before, last);
      CoroutinesOne(before, last);
      assert before + [last] == b && (a + before) + [last] == a + b;
    }
  }

  // From w to v each coroutine attempted has become a task if a loop was running, and there is no other new one.
  ghost predicate Tasked(code: Code, w: World, v: World) {
    && w.log <= v.log
    && v.tasks == if code.loopRunning then w.tasks + Coroutines(v.log[|w.log|..]) else w.tasks
  }

  lemma TaskedThen(code: Code, w: World, v: World, u: World)
    requires Tasked(code, w, v) && Tasked(code, v, u)
    ensures Tasked(code, w, u)
  {
    hide Coroutines;
    Suffixes(w.log, v.log, u.log);
    CoroutinesBoth(v.log[|w.log|..], u.log[|v.log|..]);
  }

  lemma Suffixes(a: seq<Attempt>, b: seq<Attempt>, c: seq<Attempt>)
    requires a <= b <= c
    ensures a <= c && b[|a|..] + c[|b|..] == c[|a|..]
  {
  }

  lemma SameTasks(code: Code, w: World, v: World)
    requires v.log == w.log && v.tasks == w.tasks
    ensures Tasked(code, w, v)
  {
    assert v.log[|w.log|..] == [];
  }

  lemma TriedTasks(code: Code, w: World, id: nat, r: Registration)
    ensures var v := Tries(w, id, r);
            Tasked(code, w, if r.isAsync then Scheduled(code, v, r.handler) else v)
  {
    var a := Attempt(id, r);
    CoroutinesOne([], a);
    NoCoroutines();
    hide Coroutines;
    assert (w.log + [a])[|w.log|..] == [] + [a];
    assert Coroutines([] + [a]) == if r.isAsync then multiset{r.handler} else multiset{};
  }

  /** A body makes a task of each coroutine that its publishes attempt, if a loop is running, and no other. */
  lemma {:induction false} ActedTasks(code: Code, w: World, actions: seq<Action>, n: nat, depth: nat)
    requires n <= |actions|
    ensures Tasked(code, w, Acted(code, w, actions, n, depth).0)
    decreases depth, 1, n
  {
    hide Tasked, Did;
    if n == 0 {
      SameTasks(code, w, w);
    } else {
      ActedTasks(code, w, actions, n - 1, depth);
      var (v, outcome) := Acted(code, w, actions, n - 1, depth);
      if outcome == Normal {
        DidTasks(code, v, actions[n - 1], depth);
        TaskedThen(code, w, v, Did(code, v, actions[n - 1], depth).0);
      }
    }
  }

  lemma {:induction false} DidTasks(code: Code, w: World, action: Action, depth: nat)
    ensures Tasked(code, w, Did(code, w, action, depth).0)
    decreases depth, 1, 0
  {
    hide Tasked, Published;
    if action.Publish? {
      PublishTasks(code, w, action.event, depth);
    } else {
      SameTasks(code, w, Did(code, w, action, depth).0);
    }
  }

  /** So does a publish: it schedules exactly the coroutines it and the publishes nested in it attempted. */
  lemma {:induction false} PublishTasks(code: Code, w: World, event: EventType, depth: nat)
    ensures Tasked(code, w, Published(code, w, event, depth).0)
    decreases depth, 0, 0
  {
    hide Tasked, Dispatched;
    if depth == 0 {
      SameTasks(code, w, w);
    } else {
      var id, s, u := |w.book|, Lookup(w.handlers, event), Entered(w, event, Running);
      SameTasks(code, w, u);
      DispatchTasks(code, u, id, s, |s|, depth - 1);
      var (v, outcome) := Dispatched(code, u, id, s, |s|, depth - 1);
      TaskedThen(code, w, u, v);
      SameTasks(code, v, Marked(v, id, Finished));
      TaskedThen(code, w, v, Marked(v, id, Finished));
    }
  }

  lemma {:induction false} DispatchTasks(code: Code, w: World, id: nat, s: seq<Registration>, n: nat, depth: nat)
    requires n <= |s|
    ensures Tasked(code, w, Dispatched(code, w, id, s, n, depth).0)
    decreases depth, 3, n
  {
    hide Tasked, Delivered;
    if n == 0 {
      SameTasks(code, w, w);
    } else {
      DispatchTasks(code, w, id, s, n - 1, depth);
      var (v, outcome) := Dispatched(code, w, id, s, n - 1, depth);
      if outcome == Normal {
        DeliverTasks(code, v, id, s[n - 1], depth);
        TaskedThen(code, w, v, Delivered(code, v, id, s[n - 1], depth).0);
      }
    }
  }

  lemma {:induction false} DeliverTasks(code: Code, w: World, id: nat, r: Registration, depth: nat)
    ensures Tasked(code, w, Delivered(code, w, id, r, depth).0)
    decreases depth, 2, 0
  {
    hide Tasked, Handled, Scheduled, Tries;
    TriedTasks(code, w, id, r);
    if !r.isAsync {
      var v := Tries(w, id, r);
      CalledIs(code, w, id, r, depth);
      HandleTasks(code, v, id, r.handler, |w.log| + 1, depth);
      TaskedThen(code, w, v, Handled(code, v, id, r.handler, |w.log| + 1, depth).0);
    }
  }

  lemma {:induction false} HandleTasks(code: Code, w: World, id: nat, h: Handler, number: nat, depth: nat)
    ensures Tasked(code, w, Handled(code, w, id, h, number, depth).0)
    decreases depth, 1, |code.script(h, number)| + 1
  {
    hide Tasked, Acted;
    var actions := code.script(h, number);
    ActedTasks(code, w, actions, |actions|, depth);
    var (v, outcome) := Acted(code, w, actions, |actions|, depth);
    SameTasks(code, v, Marked(v, id, Cut));
    TaskedThen(code, w, v, Marked(v, id, Cut));
  }

  /******* A body, action by action *******/

  // The registrations of the other events stand.
  ghost predicate OthersStand(w: World, v: World, event: EventType) {
    forall other :: other != event ==> Lookup(v.handlers, other) == Lookup(w.handlers, other)
  }

  // The first registration of the handler is gone from s, or there was none.
  ghost predicate FirstGone(s: seq<Registration>, h: Handler, t: seq<Registration>) {
    || (t == s && forall k :: 0 <= k < |s| ==> s[k].handler != h)
    || exists i :: GoneAt(s, h, t, i)
  }

  ghost predicate GoneAt(s: seq<Registration>, h: Handler, t: seq<Registration>, i: nat) {
    i < |s| && s[i].handler == h && (forall k :: 0 <= k < i ==> s[k].handler != h) && t == s[..i] + s[i + 1..]
  }

  lemma WithoutIs(s: seq<Registration>, h: Handler)
    ensures FirstGone(s, h, Without(s, h))
  {
    var i := FirstOf(s, h);
    assert i < |s| ==> GoneAt(s, h, Without(s, h), i);
  }

  // What one action does.
  ghost predicate Effect(code: Code, w: World, action: Action, v: World, outcome: Outcome, depth: nat) {
    match action
    case Subscribe(event, h) =>
      && outcome == Normal && v == w.(handlers := v.handlers) && OthersStand(w, v, event)
      && Lookup(v.handlers, event) == Lookup(w.handlers, event) + [Registration(h, code.isCoroutine(h))]
    case Unsubscribe(event, h) =>
      && outcome == Normal && v == w.(handlers := v.handlers) && OthersStand(w, v, event)
      && FirstGone(Lookup(w.handlers, event), h, Lookup(v.handlers, event))
    case Clear =>
      outcome == Normal && v == w.(handlers := v.handlers) && forall e :: Lookup(v.handlers, e) == []
    case Publish(event) =>
      if depth == 0 then v == w && outcome == Raised
      else
        && outcome != Raised && |v.book| > |w.book|
        && v.book[|w.book|] == Record(Lookup(w.handlers, event), if outcome == Normal then Finished else Cut)
    case Raise => v == w && outcome == Raised
    case Abort => v == w && outcome == Aborted
  }

  lemma DidEffect(code: Code, w: World, action: Action, depth: nat)
    requires Sound(w)
    ensures var (v, outcome) := Did(code, w, action, depth); Effect(code, w, action, v, outcome, depth)
  {
    hide Sound;
    match action
    case Publish(event) =>
      PublishEffect(code, w, event, depth);
      hide Published;
    case Unsubscribe(event, h) =>
      UnsubscribeEffect(w, event, h);
      hide FirstGone, Without;
    case _ =>
      hide Published, FirstGone, Without;
  }

  lemma UnsubscribeEffect(w: World, event: EventType, h: Handler)
    ensures var v := Unsubscribed(w, event, h);
            && v == w.(handlers := v.handlers) && OthersStand(w, v, event)
            && FirstGone(Lookup(w.handlers, event), h, Lookup(v.handlers, event))
  {
    WithoutIs(Lookup(w.handlers, event), h);
    NothingGone(h);
    hide FirstGone, Without;
  }

  lemma PublishEffect(code: Code, w: World, event: EventType, depth: nat)
    requires Sound(w)
    ensures var (v, outcome) := Published(code, w, event, depth);
            if depth == 0 then v == w && outcome == Raised
            else
              && outcome != Raised && |v.book| > |w.book|
              && v.book[|w.book|] == Record(Lookup(w.handlers, event), if outcome == Normal then Finished else Cut)
  {
    hide Sound, Published, Quiet;
    PublishKeeps(code, w, event, depth);
    Refused(code, w, event);
  }

  lemma NothingGone(h: Handler)
    ensures Without([], h) == []
  {
  }

  lemma Refused(code: Code, w: World, event: EventType)
    ensures Published(code, w, event, 0) == (w, Raised)
  {
  }

  /** A body goes on from where it is until an action raises or aborts, each action with its own effect. */
  lemma ActedStep(code: Code, w: World, actions: seq<Action>, n: nat, depth: nat)
    requires Sound(w) && n < |actions|
    ensures Acted(code, w, actions, 0, depth) == (w, Normal)
    ensures var (v, outcome) := Acted(code, w, actions, n, depth);
            var (u, next) := Acted(code, w, actions, n + 1, depth);
            if outcome != Normal then (u, next) == (v, outcome) else Effect(code, v, actions[n], u, next, depth)
  {
    hide Sound, Did, Effect;
    ActedQuiet(code, w, actions, n, depth);
    DidEffect(code, Acted(code, w, actions, n, depth).0, actions[n], depth);
  }

  /******* The event loop's turns *******/

  ghost predicate TurnEffect(code: Code, w: World, turn: Turn, v: World, depth: nat) {
    match turn
    case Begin(event) =>
      var s := Lookup(w.handlers, event);
      && v.handlers == w.handlers && v.tasks == w.tasks && v.log == w.log
      && v.book == w.book + [Record(s, Suspended)] && v.frames == w.frames[|w.book| := Frame(s, 0)]
    case Resume(id) =>
      if id !in w.frames then v == w
      else
        var f := w.frames[id];
        && id < |v.book| && v.book[id].found == f.snapshot && f.next <= |f.snapshot|
        && if f.next == |f.snapshot| then v.book[id].state == Finished && v.log == w.log && id !in v.frames
           else
             && v.book[id].state in {Suspended, Cut} && (id in v.frames <==> v.book[id].state == Suspended)
             && Tried(v.log, id) == Tried(w.log, id) + [f.snapshot[f.next]]
    case Act(actions) =>
      exists outcome :: (v, outcome) == Acted(code, w, actions, |actions|, depth)
  }

  lemma BeginEffect(code: Code, w: World, event: EventType, depth: nat)
    requires Sound(w)
    ensures TurnEffect(code, w, Begin(event), Started(w, event), depth)
  {
    hide Sound, Steady;
    StartKeeps(w, event);
  }

  lemma ResumeEffect(code: Code, w: World, id: nat, depth: nat)
    requires Sound(w)
    ensures TurnEffect(code, w, Resume(id), Resumed(code, w, id, depth), depth)
  {
    if id in w.frames {
      assert Matches(w.frames[id], w.book[id], Tried(w.log, id));
      hide Sound;
      if w.frames[id].next == |w.frames[id].snapshot| {
        EndEffect(code, w, id, depth);
      } else {
        DeliveryEffect(code, w, id, depth);
      }
      hide Resumed, Tried;
    }
  }

  lemma EndEffect(code: Code, w: World, id: nat, depth: nat)
    requires Sound(w) && id in w.frames && w.frames[id].next == |w.frames[id].snapshot|
    ensures var f, v := w.frames[id], Resumed(code, w, id, depth);
            && id < |v.book| && v.book[id].found == f.snapshot
            && v.book[id].state == Finished && v.log == w.log && id !in v.frames
  {
    ResumeKeeps(code, w, id, depth);
    hide Sound, Steady, Called, Tried;
  }

  lemma DeliveryEffect(code: Code, w: World, id: nat, depth: nat)
    requires Sound(w) && id in w.frames && w.frames[id].next < |w.frames[id].snapshot|
    requires Matches(w.frames[id], w.book[id], Tried(w.log, id))
    ensures var f, v := w.frames[id], Resumed(code, w, id, depth);
            && id < |v.book| && v.book[id].found == f.snapshot
            && v.book[id].state in {Suspended, Cut} && (id in v.frames <==> v.book[id].state == Suspended)
            && Tried(v.log, id) == Tried(w.log, id) + [f.snapshot[f.next]]
  {
    var f, v := w.frames[id], Resumed(code, w, id, depth);
    assert f.next <= |f.snapshot| && Tried(w.log, id) == f.snapshot[..f.next];
    hide *;
    ResumeKeeps(code, w, id, depth);
    OneLonger(f.snapshot, f.next);
    if id in v.frames {
      SuspendedIn(v, id);
    }
    ShelvedThere(code, w, id, depth);
  }

  lemma OneLonger(s: seq<Registration>, n: nat)
    requires n < |s|
    ensures s[..n + 1] == s[..n] + [s[n]]
  {
  }

  lemma ShelvedThere(code: Code, w: World, id: nat, depth: nat)
    requires id in w.frames && w.frames[id].next < |w.frames[id].snapshot|
    ensures var f, u := w.frames[id], Marked(w.(frames := w.frames - {id}), id, Running);
            Called(code, u, id, f.snapshot[f.next], depth).1 != Aborted ==> id in Resumed(code, w, id, depth).frames
  {
    ResumedIs(code, w, id, depth);
    hide Called, Resumed;
  }

  lemma SuspendedIn(v: World, id: nat)
    requires Sound(v) && id in v.frames
    ensures id < |v.book| && v.book[id].state == Suspended
  {
  }

  /** Each turn has its own effect on what the turns before it left. */
  lemma TurnStep(code: Code, w: World, turns: seq<Turn>, n: nat, depth: nat)
    requires Sound(w) && n < |turns|
    ensures Turned(code, w, turns, 0, depth) == w
    ensures TurnEffect(code, Turned(code, w, turns, n, depth), turns[n], Turned(code, w, turns, n + 1, depth), depth)
  {
    TurnsKeep(code, w, turns, n, depth);
    var v := Turned(code, w, turns, n, depth);
    hide Sound, Steady;
    match turns[n]
    case Begin(event) =>
      hide Started, TurnEffect;
      BeginEffect(code, v, event, depth);
    case Resume(id) =>
      hide Resumed, TurnEffect;
      ResumeEffect(code, v, id, depth);
    case Act(actions) =>
      hide Acted;
      assert (Turned(code, w, turns, n + 1, depth), Acted(code, v, actions, |actions|, depth).1) ==
        Acted(code, v, actions, |actions|, depth);
  }

  /******* What runs during an await, and what a handler publishes *******/

  // Every handler is a coroutine that does nothing, or nothing that the bus sees.
  ghost predicate Idle(code: Code) {
    forall h: Handler, n: nat :: code.script(h, n) == []
  }

  // s followed by n registrations of the same handler.
  function Followed(s: seq<Registration>, r: Registration, n: nat): seq<Registration> {
    s + seq(n, _ => r)
  }

  lemma IdleAwaited(code: Code, w: World, id: nat, r: Registration, event: EventType, h: Handler, depth: nat)
    requires Idle(code) && r.isAsync
    ensures var (v, outcome) := AwaitedOne(code, w, id, r, depth, [Act([Subscribe(event, h)])]);
            && outcome == Normal && v.log == w.log + [Attempt(id, r)]
            && Lookup(v.handlers, event) == Lookup(w.handlers, event) + [Registration(h, code.isCoroutine(h))]
  {
    var turns, actions := [Act([Subscribe(event, h)])], [Subscribe(event, h)];
    var tried := Tries(w, id, r);
    assert Acted(code, tried, actions, 1, depth) == (Subscribed(code, tried, event, h), Normal) by {
      assert Acted(code, tried, actions, 0, depth) == (tried, Normal);
    }
    hide Acted;
    assert Turned(code, tried, turns, 0, depth) == tried;
    assert Turned(code, tried, turns, 1, depth) == Subscribed(code, tried, event, h);
    hide Turned, Idle;
    IdleHandled(code, Subscribed(code, tried, event, h), id, r.handler, |w.log| + 1, depth);
  }

  lemma IdleHandled(code: Code, w: World, id: nat, h: Handler, number: nat, depth: nat)
    requires Idle(code)
    ensures Handled(code, w, id, h, number, depth) == (w, Normal)
  {
    assert code.script(h, number) == [];
  }

  lemma {:induction false} IdleAwaits(code: Code, w: World, id: nat, s: seq<Registration>, n: nat, event: EventType,
      h: Handler, depth: nat)
    requires Idle(code) && n <= |s| && (forall k :: 0 <= k < |s| ==> s[k].isAsync) && Lookup(w.handlers, event) == s
    ensures var (v, outcome) := Awaited(code, w, id, s, n, depth, _ => [Act([Subscribe(event, h)])]);
            && outcome == Normal && v.log == w.log + Attempts(id, s[..n])
            && Lookup(v.handlers, event) == Followed(s, Registration(h, code.isCoroutine(h)), n)
    decreases n
  {
    hide Idle, AwaitedOne;
    if n > 0 {
      IdleAwaits(code, w, id, s, n - 1, event, h, depth);
      var v := Awaited(code, w, id, s, n - 1, depth, _ => [Act([Subscribe(event, h)])]).0;
      IdleAwaited(code, v, id, s[n - 1], event, h, depth);
    }
  }

  /** What the loop runs at an await takes effect, and the publish that is waiting does not see it: a handler
      subscribed at each of its awaits stands that many times more and is not attempted. */
  lemma SubscribedMeanwhile(code: Code, w: World, event: EventType, h: Handler, depth: nat)
    requires Idle(code) && depth > 0 && forall k :: 0 <= k < |Lookup(w.handlers, event)| ==>
        Lookup(w.handlers, event)[k].isAsync
    ensures var (v, outcome) := PublishedAsync(code, w, event, depth, _ => [Act([Subscribe(event, h)])]);
            var s := Lookup(w.handlers, event);
            && outcome == Normal && v.log == w.log + Attempts(|w.book|, s)
            && Lookup(v.handlers, event) == s + seq(|s|, _ => Registration(h, code.isCoroutine(h)))
  {
    var id, s, u := |w.book|, Lookup(w.handlers, event), Entered(w, event, Running);
    hide Idle, Awaited, Attempts;
    IdleAwaits(code, u, id, s, |s|, event, h, depth - 1);
    assert s[..|s|] == s;
  }

  // Handler 0 of "a" publishes "b", which has handler 1.
  function Relay(): Code {
    Code((h, n) => if h == 0 then [Publish("b")] else [], h => false, true)
  }

  function Relayed(): World {
    Subscribed(Relay(), Subscribed(Relay(), EMPTY, "a", 0), "b", 1)
  }

  lemma RelayNested(w: World, depth: nat)
    requires |w.log| == |w.book| == 1 && Lookup(w.handlers, "b") == [Registration(1, false)]
    ensures var (v, outcome) := Published(Relay(), w, "b", depth);
            && outcome == (if depth > 0 then Normal else Raised)
            && v.log == if depth > 0 then w.log + [Attempt(1, Registration(1, false))] else w.log
  {
    var code, s := Relay(), [Registration(1, false)];
    if depth > 0 {
      assert code.script(1, 2) == [] && Flat([]) && Ending([], 0) == Normal;
      assert FlatCalls(code, s, 1) && !Ends(code, s[0], 2) && !CutBy(code, s, 1, 1);
      PublishCutExactly(code, w, "b", depth);
      hide Published;
      assert Attempts(1, s[..1]) == [Attempt(1, s[0])];
    }
  }

  lemma RelayBody(w: World, depth: nat)
    requires Published(Relay(), w, "b", depth).1 != Aborted
    ensures Handled(Relay(), w, 0, 0, 1, depth) == (Published(Relay(), w, "b", depth).0, Normal)
  {
    var code, actions := Relay(), [Publish("b")];
    hide Published;
    assert code.script(0, 1) == actions;
    assert Acted(code, w, actions, 0, depth) == (w, Normal);
    assert Acted(code, w, actions, 1, depth) == Did(code, w, actions[0], depth);
  }

  /** A handler's own publish is delivered at once, exactly when the recursion limit leaves room for it. */
  lemma NestedDelivered(depth: nat)
    requires depth > 0
    ensures var (v, outcome) := Published(Relay(), Relayed(), "a", depth);
            var a, b := Registration(0, false), Registration(1, false);
            && outcome == Normal
            && v.log == if depth > 1 then [Attempt(0, a), Attempt(1, b)] else [Attempt(0, a)]
  {
    var code, w, a, b := Relay(), Relayed(), Registration(0, false), Registration(1, false);
    assert Lookup(w.handlers, "a") == [a] && Lookup(w.handlers, "b") == [b];
    var u := Entered(w, "a", Running);
    var tried := Tries(u, 0, a);
    RelayNested(tried, depth - 1);
    RelayBody(tried, depth - 1);
    PublishedIs(code, w, "a", depth);
    DispatchedNext(code, u, 0, [a], 0, depth - 1, u);
    hide Published, Dispatched, Handled;
  }
}
