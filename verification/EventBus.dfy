/** The bus object. Its methods change its fields step by step; their contracts give the whole new state as
    a function of the old one, and what that function was proved to keep. */
module EventBus {
  import opened BusModel
  import opened BusLaws
  import opened BusAborts
  import opened BusEffects

  class Bus {
    const code: Code
    var handlers: map<EventType, seq<Registration>>
    var tasks: multiset<Handler>
    var log: seq<Attempt>
    var frames: map<nat, Frame>
    var publishes: nat
    ghost var book: seq<Record>

    ghost function View(): World
      reads this
    {
      World(handlers, tasks, log, book, frames)
    }

    ghost predicate Valid()
      reads this
    {
      publishes == |book|
    }

    constructor (code: Code)
      ensures Valid() && View() == EMPTY && Sound(View())
    {
      this.code := code;
      handlers, tasks, log, frames, publishes, book := map[], multiset{}, [], map[], 0, [];
    }

    method DoSubscribe(event: EventType, h: Handler)
      requires Valid()
      modifies this`handlers
      ensures Valid() && View() == Subscribed(code, old(View()), event, h)
      ensures Lookup(handlers, event) == Lookup(old(handlers), event) + [Registration(h, code.isCoroutine(h))]
      ensures forall other :: other != event ==> Lookup(handlers, other) == Lookup(old(handlers), other)
    {
      handlers := handlers[event := Lookup(handlers, event) + [Registration(h, code.isCoroutine(h))]];
    }

    method DoUnsubscribe(event: EventType, h: Handler)
      requires Valid()
      modifies this`handlers
      ensures Valid() && View() == Unsubscribed(old(View()), event, h)
      ensures Lookup(handlers, event) == Without(Lookup(old(handlers), event), h)
      ensures forall other :: other != event ==> Lookup(handlers, other) == Lookup(old(handlers), other)
    {
      var s := Lookup(handlers, event);
      for i := 0 to |s|
        invariant forall k :: 0 <= k < i ==> s[k].handler != h
      {
        if s[i].handler == h {
          FirstOfIs(s, h, i);
          handlers := handlers[event := s[..i] + s[i + 1..]];
          return;
        }
      }
      FirstOfIs(s, h, |s|);
      assert event in handlers ==> handlers[event := s] == handlers;
    }

    method DoClear()
      requires Valid()
      modifies this`handlers
      ensures Valid() && handlers == map[] && View() == old(View()).(handlers := map[])
    {
      handlers := map[];
    }

    method Enter(event: EventType) returns (id: nat, snapshot: seq<Registration>)
      requires Valid()
      modifies this`book, this`publishes
      ensures Valid() && id == |old(View()).book| && snapshot == Lookup(old(View()).handlers, event)
      ensures View() == Entered(old(View()), event, Running)
    {
      id, snapshot := publishes, Lookup(handlers, event);
      publishes, book := publishes + 1, book + [Record(snapshot, Running)];
    }

    // The attempt's number is how many there have been.
    method Try(id: nat, r: Registration) returns (number: nat)
      requires Valid()
      modifies this`log
      ensures Valid() && View() == Tries(old(View()), id, r) && number == |View().log|
    {
      log := log + [Attempt(id, r)];
      number := |log|;
    }

    ghost method Mark(id: nat, state: State)
      requires Valid()
      modifies this`book
      ensures Valid() && View() == Marked(old(View()), id, state)
    {
      if id < |book| {
        book := book[id := book[id].(state := state)];
      }
    }

    // A coroutine becomes a task if a loop is running; without one there is only the exception, which is caught.
    method Schedule(h: Handler)
      requires Valid()
      modifies this`tasks
      ensures Valid() && View() == Scheduled(code, old(View()), h)
    {
      if code.loopRunning {
        tasks := tasks + multiset{h};
      }
    }

    /** publish. The depth is what is left of the interpreter's recursion limit; a call beyond it raises. */
    method DoPublish(event: EventType, depth: nat) returns (outcome: Outcome)
      requires Valid()
      modifies this
      ensures Valid() && (View(), outcome) == Published(code, old(View()), event, depth)
      ensures outcome == Raised <==> depth == 0
      ensures NeverAborts(code) && depth > 0 ==> outcome == Normal
      ensures Sound(old(View())) ==> Sound(View()) && Quiet(old(View()), View())
      ensures Sound(old(View())) && outcome == Normal ==>
                Tried(View().log, |old(View()).book|) == Lookup(old(View()).handlers, event)
      ensures Sound(old(View())) && outcome == Aborted ==>
                var s := Lookup(old(View()).handlers, event);
                exists i :: 0 < i <= |s| && CutOff(View(), |old(View()).book|, s, i)
      ensures Tasked(code, old(View()), View())
      decreases depth, 0
    {
      ghost var w := View();
      hide *;
      PublishTasks(code, w, event, depth);
      PublishFacts(code, w, event, depth);
      if depth == 0 {
        return Raised;
      }
      PublishedIs(code, w, event, depth);
      var id, snapshot := Enter(event);
      ghost var u := View();
      for i := 0 to |snapshot|
        invariant Valid() && (View(), Normal) == Dispatched(code, u, id, snapshot, i, depth - 1)
      {
        DispatchedNext(code, u, id, snapshot, i, depth - 1, View());
        var number := Try(id, snapshot[i]);
        if snapshot[i].isAsync {
          Schedule(snapshot[i].handler);
        } else {
          outcome := Handle(id, snapshot[i].handler, number, depth - 1);
          if outcome == Aborted {
            DispatchStops(code, u, id, snapshot, i + 1, |snapshot|, depth - 1);
            return;
          }
        }
      }
      Mark(id, Finished);
      outcome := Normal;
    }

    /** The call of a handler by the publish that has just tried it: its exceptions end here, and anything
        else ends the publish. */
    method Handle(id: nat, h: Handler, number: nat, depth: nat) returns (outcome: Outcome)
      requires Valid()
      modifies this
      ensures Valid() && (View(), outcome) == Handled(code, old(View()), id, h, number, depth)
      ensures var actions := code.script(h, number);
              outcome == if Acted(code, old(View()), actions, |actions|, depth).1 == Aborted then Aborted else Normal
      ensures NeverAborts(code) ==> outcome == Normal
      decreases depth, 2
    {
      hide Marked;
      outcome := RunActions(code.script(h, number), depth);
      if outcome == Aborted {
        Mark(id, Cut);
      } else {
        outcome := Normal;
      }
    }

    /** A body of code: its actions in order, until one raises or aborts. */
    method RunActions(actions: seq<Action>, depth: nat) returns (outcome: Outcome)
      requires Valid()
      modifies this
      ensures Valid() && (View(), outcome) == Acted(code, old(View()), actions, |actions|, depth)
      ensures NeverAborts(code) && Abort !in actions ==> outcome != Aborted
      ensures Flat(actions) ==> outcome == Ending(actions, |actions|) && log == old(log) && book == old(book)
      ensures Sound(old(View())) ==> Sound(View()) && Quiet(old(View()), View())
      decreases depth, 1
    {
      ghost var w := View();
      ActionFacts(code, w, actions, depth);
      hide Sound, Quiet, NeverAborts, Flat, Ending, Published, Subscribed, Unsubscribed;
      outcome := Normal;
      for i := 0 to |actions|
        invariant Valid() && (View(), outcome) == Acted(code, w, actions, i, depth) && outcome == Normal
      {
        match actions[i] {
          case Raise => outcome := Raised;
          case Abort => outcome := Aborted;
          case Subscribe(event, h) => DoSubscribe(event, h);
          case Unsubscribe(event, h) => DoUnsubscribe(event, h);
          case Clear => DoClear();
          case Publish(event) => outcome := DoPublish(event, depth);
        }
        if outcome != Normal {
          ActionsStop(code, w, actions, i + 1, |actions|, depth);
          return;
        }
      }
    }

    /** publish_async from beginning to end. Each await gives way to the event loop, which may run
        whatever it likes meanwhile, other asynchronous publishes among it. */
    method DoPublishAsync(event: EventType, depth: nat, meanwhile: nat -> seq<Turn>) returns (outcome: Outcome)
      requires Valid()
      modifies this
      ensures Valid() && (View(), outcome) == PublishedAsync(code, old(View()), event, depth, meanwhile)
      ensures outcome == Raised <==> depth == 0
      ensures NeverAborts(code) && depth > 0 ==> outcome == Normal
      ensures Sound(old(View())) ==> Sound(View()) && Steady(old(View()), View())
      ensures Sound(old(View())) && outcome == Normal ==>
                Tried(View().log, |old(View()).book|) == Lookup(old(View()).handlers, event)
      ensures Sound(old(View())) && outcome == Aborted ==>
                var s := Lookup(old(View()).handlers, event);
                exists i :: 0 < i <= |s| && CutOff(View(), |old(View()).book|, s, i)
    {
      ghost var w := View();
      hide *;
      PublishAsyncFacts(code, w, event, depth, meanwhile);
      if depth == 0 {
        return Raised;
      }
      PublishedAsyncIs(code, w, event, depth, meanwhile);
      var id, snapshot := Enter(event);
      ghost var u := View();
      for i := 0 to |snapshot|
        invariant Valid() && (View(), Normal) == Awaited(code, u, id, snapshot, i, depth - 1, meanwhile)
      {
        AwaitedNext(code, u, id, snapshot, i, depth - 1, meanwhile, View());
        var number := Try(id, snapshot[i]);
        if snapshot[i].isAsync {
          RunTurns(meanwhile(i), depth - 1);
        }
        outcome := Handle(id, snapshot[i].handler, number, depth - 1);
        if outcome == Aborted {
          AwaitsStop(code, u, id, snapshot, i + 1, |snapshot|, depth - 1, meanwhile);
          return;
        }
      }
      Mark(id, Finished);
      outcome := Normal;
    }

    /** publish_async up to its first suspension. */
    method StartPublish(event: EventType) returns (id: nat)
      requires Valid()
      modifies this`frames, this`book, this`publishes
      ensures Valid() && id == |old(book)| && View() == Started(old(View()), event)
      ensures var s := Lookup(old(handlers), event);
              && book == old(book) + [Record(s, Suspended)]
              && frames == old(frames)[id := Frame(s, 0)] && log == old(log)
      ensures Sound(old(View())) ==> Sound(View()) && Steady(old(View()), View())
    {
      ghost var w := View();
      if Sound(w) {
        StartKeeps(w, event);
      }
      hide Sound, Steady;
      var snapshot;
      id, snapshot := Enter(event);
      Shelve(id, Frame(snapshot, 0));
    }

    // A publish is suspended, with so much of its snapshot still to deliver.
    method Shelve(id: nat, f: Frame)
      requires Valid()
      modifies this`frames, this`book
      ensures Valid() && View() == Shelved(old(View()), id, f)
    {
      frames := frames[id := f];
      Mark(id, Suspended);
    }

    method TakeUp(id: nat) returns (f: Frame)
      requires Valid() && id in frames
      modifies this`frames, this`book
      ensures Valid() && id in old(View()).frames && f == old(View()).frames[id]
      ensures View() == Marked(old(View()).(frames := old(View()).frames - {id}), id, Running)
    {
      f := frames[id];
      frames := frames - {id};
      Mark(id, Running);
    }

    /** The next delivery of a suspended publish, up to the following suspension or to its abortion. */
    method DeliverNext(id: nat, depth: nat) returns (outcome: Outcome)
      requires Valid() && id in View().frames && View().frames[id].next < |View().frames[id].snapshot|
      modifies this
      ensures Valid() && View() == Resumed(code, old(View()), id, depth) && outcome != Raised
      ensures NeverAborts(code) ==> outcome == Normal
      ensures Sound(old(View())) ==>
                var f, v := old(View()).frames[id], View();
                && Sound(v) && Steady(old(View()), v)
                && id < |v.book| && v.book[id] == Record(f.snapshot, if outcome == Aborted then Cut else Suspended)
                && Tried(v.log, id) == f.snapshot[..f.next + 1]
    {
      ghost var w := View();
      hide *;
      outcome := GoOn(id, depth);
      ResumeFacts(code, w, id, depth);
    }

    method GoOn(id: nat, depth: nat) returns (outcome: Outcome)
      requires Valid() && id in View().frames && View().frames[id].next < |View().frames[id].snapshot|
      modifies this
      ensures Valid() && View() == Resumed(code, old(View()), id, depth)
      ensures var f, w := old(View()).frames[id], old(View());
              var u := Marked(w.(frames := w.frames - {id}), id, Running);
              outcome == Called(code, u, id, f.snapshot[f.next], depth).1
    {
      ghost var w := View();
      assert id in frames;
      ResumedIs(code, w, id, depth);
      hide *;
      var f := TakeUp(id);
      outcome := CallNext(id, f, depth);
      if outcome != Aborted {
        Shelve(id, Frame(f.snapshot, f.next + 1));
      }
    }

    method CallNext(id: nat, f: Frame, depth: nat) returns (outcome: Outcome)
      requires Valid() && f.next < |f.snapshot|
      modifies this
      ensures Valid() && (View(), outcome) == Called(code, old(View()), id, f.snapshot[f.next], depth)
    {
      hide *;
      CalledIs(code, View(), id, f.snapshot[f.next], depth);
      var number := Try(id, f.snapshot[f.next]);
      outcome := Handle(id, f.snapshot[f.next].handler, number, depth);
    }

    /** Its end, when everything it found has been attempted. */
    method EndPublish(id: nat)
      requires Valid() && id in frames && frames[id].next >= |frames[id].snapshot|
      modifies this`frames, this`book
      ensures Valid() && View() == Resumed(code, old(View()), id, 0) && log == old(log) && frames == old(frames) - {id}
      ensures Sound(old(View())) ==>
                && Sound(View()) && Steady(old(View()), View())
                && id < |book| && book[id] == Record(old(frames)[id].snapshot, Finished)
                && Tried(log, id) == old(frames)[id].snapshot
    {
      ghost var w := View();
      if Sound(w) {
        ResumeKeeps(code, w, id, 0);
      }
      var f := TakeUp(id);
      Mark(id, Finished);
    }

    /** Whatever turns the event loop takes, every publish keeps its promise. */
    method RunTurns(turns: seq<Turn>, depth: nat)
      requires Valid()
      modifies this
      ensures Valid() && View() == Turned(code, old(View()), turns, |turns|, depth)
      ensures Sound(old(View())) ==> Sound(View()) && Steady(old(View()), View())
    {
      ghost var w := View();
      if Sound(w) {
        TurnsKeep(code, w, turns, |turns|, depth);
      }
      hide Sound, Steady, Started, Acted;
      for i := 0 to |turns|
        invariant Valid() && View() == Turned(code, w, turns, i, depth)
      {
        match turns[i] {
          case Begin(event) =>
            var _ := StartPublish(event);
          case Resume(id) => ResumePublish(id, depth);
          case Act(actions) =>
            var _ := RunActions(actions, depth);
        }
      }
    }

    method ResumePublish(id: nat, depth: nat)
      requires Valid()
      modifies this
      ensures Valid() && View() == Resumed(code, old(View()), id, depth)
    {
      if id in frames {
        if frames[id].next >= |frames[id].snapshot| {
          EndPublish(id);
        } else {
          var _ := DeliverNext(id, depth);
        }
      }
    }
  }
}
