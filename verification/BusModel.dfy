/** What the publish-subscribe bus does, as a function of what its handlers do: they may subscribe,
    unsubscribe, clear, publish again, raise, or abort, and any number of asynchronous publishes may be
    under way at once. */
module BusModel {
  type EventType = string
  type Handler = nat

  datatype Registration = Registration(handler: Handler, isAsync: bool)

  datatype Action =
    | Subscribe(event: EventType, handler: Handler)
    | Unsubscribe(event: EventType, handler: Handler)
    | Clear
    | Publish(event: EventType)
    | Raise  // an Exception, which the bus catches
    | Abort  // SystemExit, KeyboardInterrupt or a cancellation, which it does not

  // What the event loop may run while others are suspended: the start of an asynchronous publish, its
  // next delivery, or a stretch of any other code, be it the rest of a handler that was awaiting.
  datatype Turn = Begin(event: EventType) | Resume(id: nat) | Act(actions: seq<Action>)

  datatype Outcome = Normal | Raised | Aborted

  // The handlers: what each does, which may differ from one attempt to the next, and which are coroutines.
  datatype Code = Code(script: (Handler, nat) -> seq<Action>, isCoroutine: Handler -> bool, loopRunning: bool)

  // An attempt of a publish to run a registration: a call of the handler, or the creation of its task.
  datatype Attempt = Attempt(publish: nat, registration: Registration)

  // An asynchronous publish that is suspended: what it took as its snapshot and how far it has got.
  datatype Frame = Frame(snapshot: seq<Registration>, next: nat)

  datatype State = Running | Suspended | Finished | Cut

  // A publish: what it found registered when it began, and what has become of it.
  datatype Record = Record(found: seq<Registration>, state: State)

  datatype World = World(handlers: map<EventType, seq<Registration>>, tasks: multiset<Handler>, log: seq<Attempt>,
    book: seq<Record>, frames: map<nat, Frame>)

  const EMPTY := World(map[], multiset{}, [], [], map[])

  function Lookup(handlers: map<EventType, seq<Registration>>, event: EventType): seq<Registration> {
    if event in handlers then handlers[event] else []
  }

  /******* The registration list *******/

  function FirstOf(s: seq<Registration>, h: Handler): (i: nat)
    ensures i <= |s| && (forall k :: 0 <= k < i ==> s[k].handler != h) && (i < |s| ==> s[i].handler == h)
  {
    if s == [] || s[0].handler == h then 0 else 1 + FirstOf(s[1..], h)
  }

  function Without(s: seq<Registration>, h: Handler): seq<Registration> {
    var i := FirstOf(s, h);
    if i < |s| then s[..i] + s[i + 1..] else s
  }

  lemma {:induction false} FirstOfIs(s: seq<Registration>, h: Handler, i: nat)
    requires i <= |s| && (forall k :: 0 <= k < i ==> s[k].handler != h) && (i < |s| ==> s[i].handler == h)
    ensures FirstOf(s, h) == i
  {
    if i > 0 {
      FirstOfIs(s[1..], h, i - 1);
    }
  }

  // s without the registration at i, when another is appended.
  function Dropped(s: seq<Registration>, r: Registration, i: nat): seq<Registration>
    requires i <= |s|
  {
    (s + [r])[..i] + (s + [r])[i + 1..]
  }

  lemma WithoutIsDropped(s: seq<Registration>, r: Registration)
    ensures Without(s + [r], r.handler) == Dropped(s, r, FirstOf(s, r.handler))
  {
    FirstOfLonger(s, r);
    hide FirstOf;
  }

  lemma FirstOfLonger(s: seq<Registration>, r: Registration)
    ensures FirstOf(s + [r], r.handler) == FirstOf(s, r.handler)
  {
    var i, t := FirstOf(s, r.handler), s + [r];
    assert forall k :: 0 <= k < |s| ==> t[k] == s[k];
    hide FirstOf;
    FirstOfIs(t, r.handler, i);
  }

  /** Subscribing and then unsubscribing a handler restores the registrations up to order ... */
  lemma SubscribeUnsubscribeMultiset(s: seq<Registration>, r: Registration)
    requires forall k :: 0 <= k < |s| && s[k].handler == r.handler ==> s[k] == r
    ensures multiset(Without(s + [r], r.handler)) == multiset(s)
  {
    WithoutIsDropped(s, r);
    var i, t := FirstOf(s, r.handler), s + [r];
    assert t[i] == r;
    hide Without, FirstOf;
    DroppedMultiset(t, r, i);
    SameRest(multiset(Dropped(s, r, i)), multiset(s), r);
  }

  lemma SameRest(a: multiset<Registration>, b: multiset<Registration>, r: Registration)
    requires a + multiset{r} == b + multiset{r}
    ensures a == b
  {
    assert a == (a + multiset{r}) - multiset{r} && b == (b + multiset{r}) - multiset{r};
  }

  lemma DroppedMultiset(t: seq<Registration>, r: Registration, i: nat)
    requires i < |t| && t[i] == r
    ensures multiset(t[..i] + t[i + 1..]) + multiset{r} == multiset(t)
  {
    assert t == t[..i] + [r] + t[i + 1..];
  }

  /** ... and in order exactly when everything from its first registration on is that handler's:
      in particular when it was not registered before. */
  lemma SubscribeUnsubscribeOrder(s: seq<Registration>, r: Registration)
    ensures Without(s + [r], r.handler) == s <==> forall k :: FirstOf(s, r.handler) <= k < |s| ==> s[k] == r
  {
    WithoutIsDropped(s, r);
    hide Without, FirstOf;
    DroppedRestores(s, r, FirstOf(s, r.handler));
  }

  lemma DroppedRestores(s: seq<Registration>, r: Registration, i: nat)
    requires i <= |s|
    ensures Dropped(s, r, i) == s <==> forall k :: i <= k < |s| ==> s[k] == r
  {
    var t := Dropped(s, r, i);
    if t == s {
      assert forall k :: i <= k < |s| ==> t[k] == (s + [r])[k + 1];
      AllSame(s, r, i);
    }
  }

  lemma {:induction false} AllSame(s: seq<Registration>, r: Registration, i: nat)
    requires i <= |s| && forall k :: i <= k < |s| ==> s[k] == (s + [r])[k + 1]
    ensures forall k :: i <= k < |s| ==> s[k] == r
    decreases |s| - i
  {
    if i < |s| {
      AllSame(s, r, i + 1);
    }
  }

  /******* What each operation does *******/

  function Subscribed(code: Code, w: World, event: EventType, h: Handler): World {
    w.(handlers := w.handlers[event := Lookup(w.handlers, event) + [Registration(h, code.isCoroutine(h))]])
  }

  function Unsubscribed(w: World, event: EventType, h: Handler): World {
    if event in w.handlers then w.(handlers := w.handlers[event := Without(w.handlers[event], h)]) else w
  }

  // A publish begins, with what is registered now.
  function Entered(w: World, event: EventType, state: State): World {
    w.(book := w.book + [Record(Lookup(w.handlers, event), state)])
  }

  function Tries(w: World, id: nat, r: Registration): World {
    w.(log := w.log + [Attempt(id, r)])
  }

  function Marked(w: World, id: nat, state: State): World {
    if id < |w.book| then w.(book := w.book[id := w.book[id].(state := state)]) else w
  }

  function Scheduled(code: Code, w: World, h: Handler): World {
    if code.loopRunning then w.(tasks := w.tasks + multiset{h}) else w
  }

  // The first n actions, up to one that raises or aborts. The depth is what is left of the interpreter's
  // recursion limit.
  function Acted(code: Code, w: World, actions: seq<Action>, n: nat, depth: nat): (r: (World, Outcome))
    requires n <= |actions|
    ensures w.log <= r.0.log
    decreases depth, 1, n
  {
    if n == 0 then (w, Normal)
    else
      var (v, outcome) := Acted(code, w, actions, n - 1, depth);
      if outcome == Normal then Did(code, v, actions[n - 1], depth) else (v, outcome)
  }

  function Did(code: Code, w: World, action: Action, depth: nat): (r: (World, Outcome))
    ensures w.log <= r.0.log
    decreases depth, 1, 0
  {
    match action
    case Subscribe(event, h) => (Subscribed(code, w, event, h), Normal)
    case Unsubscribe(event, h) => (Unsubscribed(w, event, h), Normal)
    case Clear => (w.(handlers := map[]), Normal)
    case Publish(event) => Published(code, w, event, depth)
    case Raise => (w, Raised)
    case Abort => (w, Aborted)
  }

  // publish: a call beyond the recursion limit raises.
  function Published(code: Code, w: World, event: EventType, depth: nat): (r: (World, Outcome))
    ensures w.log <= r.0.log
    decreases depth, 0, 0
  {
    if depth == 0 then (w, Raised)
    else
      var s := Lookup(w.handlers, event);
      Closed(Dispatched(code, Entered(w, event, Running), |w.book|, s, |s|, depth - 1), |w.book|)
  }

  function Closed(r: (World, Outcome), id: nat): (World, Outcome) {
    if r.1 == Normal then (Marked(r.0, id, Finished), Normal) else r
  }

  // The first n deliveries of a snapshot, up to one that aborts.
  function Dispatched(code: Code, w: World, id: nat, s: seq<Registration>, n: nat, depth: nat): (r: (World, Outcome))
    requires n <= |s|
    ensures w.log <= r.0.log && r.1 != Raised
    decreases depth, 3, n
  {
    if n == 0 then (w, Normal)
    else
      var (v, outcome) := Dispatched(code, w, id, s, n - 1, depth);
      if outcome == Normal then Delivered(code, v, id, s[n - 1], depth) else (v, outcome)
  }

  // A coroutine becomes a task, if there is a loop to run it; any other handler is called.
  function Delivered(code: Code, w: World, id: nat, r: Registration, depth: nat): (q: (World, Outcome))
    ensures w.log < q.0.log && q.1 != Raised
    decreases depth, 2, 1
  {
    if r.isAsync then (Scheduled(code, Tries(w, id, r), r.handler), Normal) else Called(code, w, id, r, depth)
  }

  function Called(code: Code, w: World, id: nat, r: Registration, depth: nat): (q: (World, Outcome))
    ensures w.log < q.0.log && q.1 != Raised
    decreases depth, 2, 0
  {
    Handled(code, Tries(w, id, r), id, r.handler, |w.log| + 1, depth)
  }

  // What the bus makes of a handler's body: an exception ends there, and anything else ends the publish.
  function Handled(code: Code, w: World, id: nat, h: Handler, number: nat, depth: nat): (r: (World, Outcome))
    ensures w.log <= r.0.log && r.1 != Raised
    decreases depth, 1, |code.script(h, number)| + 1
  {
    var actions := code.script(h, number);
    var (v, outcome) := Acted(code, w, actions, |actions|, depth);
    if outcome == Aborted then (Marked(v, id, Cut), Aborted) else (v, Normal)
  }

  /******* Asynchronous publishes *******/

  // The next delivery of a suspended publish, or its end.
  function Resumed(code: Code, w: World, id: nat, depth: nat): (v: World)
    ensures w.log <= v.log
  {
    if id !in w.frames then w
    else
      var f := w.frames[id];
      var v := Marked(w.(frames := w.frames - {id}), id, Running);
      if f.next >= |f.snapshot| then Marked(v, id, Finished)
      else
        var (u, outcome) := Called(code, v, id, f.snapshot[f.next], depth);
        if outcome == Aborted then u else Shelved(u, id, Frame(f.snapshot, f.next + 1))
  }

  function Shelved(w: World, id: nat, f: Frame): World {
    Marked(w.(frames := w.frames[id := f]), id, Suspended)
  }

  // publish_async up to its first suspension.
  function Started(w: World, event: EventType): World {
    Shelved(Entered(w, event, Running), |w.book|, Frame(Lookup(w.handlers, event), 0))
  }

  function Turned(code: Code, w: World, turns: seq<Turn>, n: nat, depth: nat): (v: World)
    requires n <= |turns|
    ensures w.log <= v.log
  {
    if n == 0 then w
    else
      var v := Turned(code, w, turns, n - 1, depth);
      match turns[n - 1]
      case Begin(event) => Started(v, event)
      case Resume(id) => Resumed(code, v, id, depth)
      case Act(actions) => Acted(code, v, actions, |actions|, depth).0
  }

  // publish_async from beginning to end. Each await gives way to the event loop, which may run
  // whatever it likes meanwhile, other asynchronous publishes among it.
  function PublishedAsync(code: Code, w: World, event: EventType, depth: nat, meanwhile: nat -> seq<Turn>):
      (World, Outcome)
  {
    if depth == 0 then (w, Raised)
    else
      var s := Lookup(w.handlers, event);
      Closed(Awaited(code, Entered(w, event, Running), |w.book|, s, |s|, depth - 1, meanwhile), |w.book|)
  }

  function Awaited(code: Code, w: World, id: nat, s: seq<Registration>, n: nat, depth: nat,
      meanwhile: nat -> seq<Turn>): (r: (World, Outcome))
    requires n <= |s|
    ensures w.log <= r.0.log && r.1 != Raised
  {
    if n == 0 then (w, Normal)
    else
      var (v, outcome) := Awaited(code, w, id, s, n - 1, depth, meanwhile);
      if outcome == Normal then AwaitedOne(code, v, id, s[n - 1], depth, meanwhile(n - 1)) else (v, outcome)
  }

  function AwaitedOne(code: Code, w: World, id: nat, r: Registration, depth: nat, turns: seq<Turn>):
      (q: (World, Outcome))
    ensures w.log < q.0.log && q.1 != Raised
  {
    var tried := Tries(w, id, r);
    var met := if r.isAsync then Turned(code, tried, turns, |turns|, depth) else tried;
    Handled(code, met, id, r.handler, |w.log| + 1, depth)
  }
}
