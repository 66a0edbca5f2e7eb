/** The shared rate limiter as a protocol of tasks: a lock, one sleep under it, and a stamp.
    acquire() suspends only while queueing for the lock and while sleeping, so between those
    points it runs as the atomic segments below, interleaved with other tasks and the clock. */
module RateLimiter {
  import opened Common

  type Task = nat

  // Ready: past the sleep (or never in need of one), about to stamp.
  datatype Phase = Idle | Queued | Sleeping(until: real) | Ready

  datatype Grant = Grant(task: Task, at: real)

  datatype State = State(now: real, last: real, holder: Option<Task>, phase: map<Task, Phase>, grants: seq<Grant>)

  datatype Event =
    | Tick(dt: real)       // the monotonic clock advances
    | Arrive(task: Task)   // a task calls acquire and queues for the lock
    | Enter(task: Task)    // it obtains the lock and computes its wait
    | Wake(task: Task)     // its sleep ends, never early
    | Stamp(task: Task)    // it writes _last_request, releases the lock and returns
    | Cancel(task: Task)   // it is cancelled while queueing or sleeping

  function PhaseOf(s: State, t: Task): Phase {
    if t in s.phase then s.phase[t] else Idle
  }

  // None when the event cannot happen in this state.
  function Next(min: real, s: State, e: Event): Option<State> {
    match e
    case Tick(dt) =>
      if dt < 0.0 then None else Some(s.(now := s.now + dt))
    case Arrive(t) =>
      if PhaseOf(s, t) != Idle then None else Some(s.(phase := s.phase[t := Queued]))
    case Enter(t) =>
      if PhaseOf(s, t) != Queued || s.holder != None then None
      else
        var wait := s.last + min - s.now;
        Some(s.(holder := Some(t), phase := s.phase[t := if wait > 0.0 then Sleeping(s.now + wait) else Ready]))
    case Wake(t) =>
      if !PhaseOf(s, t).Sleeping? || s.now < PhaseOf(s, t).until then None
      else Some(s.(phase := s.phase[t := Ready]))
    case Stamp(t) =>
      if PhaseOf(s, t) != Ready then None
      else Some(s.(last := s.now, holder := None, phase := s.phase[t := Idle], grants := s.grants + [Grant(t, s.now)]))
    case Cancel(t) =>
      if PhaseOf(s, t).Sleeping? then Some(s.(holder := None, phase := s.phase[t := Idle]))
      else if PhaseOf(s, t).Queued? then Some(s.(phase := s.phase[t := Idle]))
      else None
  }

  function Start(now: real): State {
    State(now, 0.0, None, map[], [])
  }

  // The state after a run of events, or None if some event was not possible.
  function Run(min: real, s: State, events: seq<Event>): Option<State> {
    if events == [] then Some(s)
    else match Run(min, s, events[..|events| - 1])
      case None => None
      case Some(s') => Next(min, s', events[|events| - 1])
  }

  /******* The limiter object *******/

  class RetryableLimiter {
    const minInterval: real
    var lastRequest: real
    var holder: Option<Task>
    var phase: map<Task, Phase>
    ghost var now: real
    ghost var grants: seq<Grant>

    ghost function View(): State
      reads this
    {
      State(now, lastRequest, holder, phase, grants)
    }

    constructor (min: real, ghost clock: real)
      ensures minInterval == min && View() == Start(clock)
    {
      minInterval, lastRequest, holder, phase := min, 0.0, None, map[];
      now, grants := clock, [];
    }

    // acquire() up to its first suspension once the lock is free: take it and compute the wait.
    method BeginAcquire(t: Task, monotonic: real) returns (wait: real)
      requires t in phase && phase[t] == Queued && holder == None && monotonic == now
      modifies this
      ensures Some(View()) == Next(minInterval, old(View()), Enter(t))
      ensures phase[t] == if wait > 0.0 then Sleeping(monotonic + wait) else Ready
    {
      wait := lastRequest + minInterval - monotonic;
      holder := Some(t);
      phase := phase[t := if wait > 0.0 then Sleeping(monotonic + wait) else Ready];
    }

    method WakeUp(t: Task, monotonic: real)
      requires t in phase && phase[t].Sleeping? && phase[t].until <= monotonic == now
      modifies this
      ensures Some(View()) == Next(minInterval, old(View()), Wake(t))
    {
      phase := phase[t := Ready];
    }

    // The rest of acquire(): claim the slot and leave the lock.
    method FinishAcquire(t: Task, monotonic: real)
      requires t in phase && phase[t] == Ready && monotonic == now
      modifies this
      ensures Some(View()) == Next(minInterval, old(View()), Stamp(t))
      ensures lastRequest == monotonic
    {
      lastRequest := monotonic;
      grants := grants + [Grant(t, monotonic)];
      holder := None;
      phase := phase[t := Idle];
    }

    // The cancellation unwinds through the lock's context manager; nothing is stamped.
    method CancelAcquire(t: Task)
      requires t in phase && (phase[t].Sleeping? || phase[t].Queued?)
      modifies this
      ensures Some(View()) == Next(minInterval, old(View()), Cancel(t))
      ensures lastRequest == old(lastRequest)
    {
      if phase[t].Sleeping? {
        holder := None;
      }
      phase := phase[t := Idle];
    }
  }

  /******* What every interleaving keeps *******/

  predicate Holding(p: Phase) {
    p.Sleeping? || p.Ready?
  }

  ghost predicate Spaced(min: real, grants: seq<Grant>) {
    forall i :: 0 <= i < |grants| - 1 ==> grants[i + 1].at - grants[i].at >= min
  }

  ghost predicate Invariant(min: real, s: State) {
    && (forall t: Task :: Holding(PhaseOf(s, t)) <==> s.holder == Some(t))
    && (forall t: Task :: PhaseOf(s, t).Sleeping? ==> PhaseOf(s, t).until >= s.last + min)
    && (forall t: Task :: PhaseOf(s, t).Ready? ==> s.now >= s.last + min)
    && (s.grants != [] ==> s.last == s.grants[|s.grants| - 1].at <= s.now)
    && Spaced(min, s.grants)
  }

  lemma StepKeepsInvariant(min: real, s: State, e: Event)
    requires Invariant(min, s) && Next(min, s, e).Some?
    ensures Invariant(min, Next(min, s, e).value)
  {
    var s' := Next(min, s, e).value;
    if e.Stamp? {
      StampSpaces(min, s.grants, Grant(e.task, s.now));
    }
    OthersStay(min, s, e);
    hide Spaced;
    if !e.Tick? {
      assert s.holder == Some(e.task) <==> Holding(PhaseOf(s, e.task));
      assert Holding(PhaseOf(s', e.task)) <==> s'.holder == Some(e.task);
    }
    hide PhaseOf;
  }

  // An event concerns the phase of its own task only.
  lemma OthersStay(min: real, s: State, e: Event)
    requires Next(min, s, e).Some?
    ensures forall t: Task :: (e.Tick? || t != e.task) ==> PhaseOf(Next(min, s, e).value, t) == PhaseOf(s, t)
  {
  }

  lemma StampSpaces(min: real, grants: seq<Grant>, g: Grant)
    requires Spaced(min, grants) && (grants != [] ==> g.at - grants[|grants| - 1].at >= min)
    ensures Spaced(min, grants + [g])
  {
  }

  /** Over every interleaving of any number of callers, cancellations included, consecutive grants
      are at least the interval apart. */
  lemma {:induction false} RunKeepsInvariant(min: real, now: real, events: seq<Event>)
    requires Run(min, Start(now), events).Some?
    ensures Invariant(min, Run(min, Start(now), events).value)
  {
    if events != [] {
      RunKeepsInvariant(min, now, events[..|events| - 1]);
      StepKeepsInvariant(min, Run(min, Start(now), events[..|events| - 1]).value, events[|events| - 1]);
    }
  }

  function CountIn(grants: seq<Grant>, from: real, to: real): nat {
    if grants == [] then 0
    else CountIn(grants[..|grants| - 1], from, to) + if from <= grants[|grants| - 1].at <= to then 1 else 0
  }

  lemma {:induction false} SpacedFar(min: real, grants: seq<Grant>, i: nat, j: nat)
    requires min >= 0.0 && Spaced(min, grants) && i < j < |grants|
    ensures grants[j].at - grants[i].at >= min
  {
    if i + 1 < j {
      SpacedFar(min, grants, i, j - 1);
    }
    assert grants[j - 1 + 1].at - grants[j - 1].at >= min;
  }

  // The latest grant in the window is a whole number of intervals after its start.
  lemma {:induction false} CountReaches(min: real, grants: seq<Grant>, from: real, to: real) returns (m: nat)
    requires min > 0.0 && Spaced(min, grants) && CountIn(grants, from, to) > 0
    ensures m < |grants| && from <= grants[m].at <= to
    ensures Multiple(min, CountIn(grants, from, to) - 1) <= grants[m].at - from
  {
    var n := |grants| - 1;
    if CountIn(grants[..n], from, to) == 0 {
      m := n;
    } else {
      m := CountReaches(min, grants[..n], from, to);
      if from <= grants[n].at <= to {
        SpacedFar(min, grants, m, n);
        m := n;
      }
    }
  }

  function Multiple(min: real, k: nat): real {
    if k == 0 then 0.0 else Multiple(min, k - 1) + min
  }

  lemma {:induction false} MultipleIs(min: real, k: nat)
    ensures Multiple(min, k) == min * (k as real)
  {
    if k > 0 {
      MultipleIs(min, k - 1);
      assert min * (k as real) == min * ((k - 1) as real) + min;
    }
  }

  lemma QuotientNonNegative(x: real, y: real)
    requires y > 0.0 && x >= 0.0
    ensures x / y >= 0.0
  {
    assert x == (x / y) * y;
  }

  // Whole intervals in a stretch of time.
  function Intervals(length: real, min: real): int
    requires min > 0.0
  {
    (length / min).Floor
  }

  lemma CountFits(min: real, length: real, k: nat)
    requires min > 0.0 && Multiple(min, k) <= length
    ensures k <= Intervals(length, min)
  {
    MultipleIs(min, k);
    var spare := length - min * (k as real);
    QuotientNonNegative(spare, min);
    assert length / min == spare / min + (k as real) by {
      assert (spare / min + (k as real)) * min == length;
    }
  }

  lemma WindowOfSpaced(min: real, grants: seq<Grant>, from: real, length: real)
    requires min > 0.0 && length >= 0.0 && Spaced(min, grants)
    ensures CountIn(grants, from, from + length) <= Intervals(length, min) + 1
  {
    hide Intervals, CountIn, Spaced;
    var count := CountIn(grants, from, from + length);
    if count > 0 {
      var m := CountReaches(min, grants, from, from + length);
      CountFits(min, length, count - 1);
    } else {
      CountFits(min, length, 0);
    }
  }

  /** So any time window of length L holds at most floor(L / interval) + 1 grants. */
  lemma WindowBound(min: real, now: real, events: seq<Event>, from: real, length: real)
    requires min > 0.0 && length >= 0.0 && Run(min, Start(now), events).Some?
    ensures CountIn(Run(min, Start(now), events).value.grants, from, from + length) <= Intervals(length, min) + 1
  {
    RunKeepsInvariant(min, now, events);
    hide Run, Intervals, CountIn;
    WindowOfSpaced(min, Run(min, Start(now), events).value.grants, from, length);
  }

  /******* The bound is attained *******/

  // One caller coming back every interval.
  function Busy(min: real, n: nat): seq<Event> {
    if n == 0 then [] else Busy(min, n - 1) + [Tick(min), Arrive(0), Enter(0), Stamp(0)]
  }

  lemma RunOne(min: real, s: State, events: seq<Event>, e: Event)
    ensures Run(min, s, events + [e]) == match Run(min, s, events) case None => None case Some(s') => Next(min, s', e)
  {
    assert (events + [e])[..|events|] == events;
  }

  ghost predicate Rested(s: State) {
    s.holder == None && PhaseOf(s, 0) == Idle && s.now >= s.last
  }

  // The four events of a round, from a limiter at rest.
  lemma RoundOf(min: real, s: State)
    requires min > 0.0 && Rested(s)
    ensures var ticked := s.(now := s.now + min);
            var queued := ticked.(phase := s.phase[0 := Queued]);
            var ready := queued.(holder := Some(0), phase := queued.phase[0 := Ready]);
            var done := ready.(last := ready.now, holder := None, phase := ready.phase[0 := Idle],
              grants := s.grants + [Grant(0, ready.now)]);
            && Next(min, s, Tick(min)) == Some(ticked) && Next(min, ticked, Arrive(0)) == Some(queued)
            && Next(min, queued, Enter(0)) == Some(ready) && Next(min, ready, Stamp(0)) == Some(done) && Rested(done)
  {
  }

  lemma BusyRound(min: real, events: seq<Event>, start: State)
    requires min > 0.0 && Run(min, start, events).Some? && Rested(Run(min, start, events).value)
    ensures var s, r := Run(min, start, events).value,
        Run(min, start, events + [Tick(min), Arrive(0), Enter(0), Stamp(0)]);
            r.Some? && Rested(r.value) && r.value.now == s.now + min
              && r.value.grants == s.grants + [Grant(0, s.now + min)]
  {
    var s := Run(min, start, events).value;
    RoundOf(min, s);
    hide Next, PhaseOf, Rested;
    RunOne(min, start, events, Tick(min));
    RunOne(min, start, events + [Tick(min)], Arrive(0));
    RunOne(min, start, events + [Tick(min)] + [Arrive(0)], Enter(0));
    RunOne(min, start, events + [Tick(min)] + [Arrive(0)] + [Enter(0)], Stamp(0));
    hide Run;
    assert events + [Tick(min), Arrive(0), Enter(0), Stamp(0)] == events + [Tick(min)] + [Arrive(0)] + [Enter(0)] +
        [Stamp(0)];
  }

  lemma {:induction false} BusyRuns(min: real, now: real, n: nat)
    requires min > 0.0 && now >= 0.0
    ensures var r := Run(min, Start(now), Busy(min, n));
            && r.Some? && Rested(r.value)
            && r.value.now == now + Multiple(min, n)
            && |r.value.grants| == n
            && forall i :: 0 <= i < n ==> r.value.grants[i].at == now + Multiple(min, i + 1)
  {
    if n > 0 {
      BusyRuns(min, now, n - 1);
      hide Run, Rested;
      BusyRound(min, Busy(min, n - 1), Start(now));
    }
  }

  lemma {:induction false} CountAll(grants: seq<Grant>, from: real, to: real)
    requires forall i :: 0 <= i < |grants| ==> from <= grants[i].at <= to
    ensures CountIn(grants, from, to) == |grants|
  {
    if grants != [] {
      CountAll(grants[..|grants| - 1], from, to);
    }
  }

  lemma {:induction false} MultipleOrder(min: real, i: nat, j: nat)
    requires min > 0.0 && i <= j
    ensures Multiple(min, i) <= Multiple(min, j)
  {
    if i < j {
      MultipleOrder(min, i, j - 1);
    }
  }

  /** There is a run with k + 1 grants in a window of k intervals, so the bound is exact. */
  lemma WindowBoundAttained(min: real, now: real, k: nat)
    requires min > 0.0 && now >= 0.0
    ensures var r := Run(min, Start(now), Busy(min, k + 1));
            r.Some? && CountIn(r.value.grants, now + min, now + min + min * (k as real)) == k + 1
  {
    MultipleIs(min, k);
    BusyRuns(min, now, k + 1);
    var grants := Run(min, Start(now), Busy(min, k + 1)).value.grants;
    hide Run, Busy;
    forall i | 0 <= i < |grants| ensures now + min <= grants[i].at <= now + min + Multiple(min, k) {
      MultipleOrder(min, 0, i);
      MultipleOrder(min, i, k);
    }
    CountAll(grants, now + min, now + min + Multiple(min, k));
  }

  /******* Nobody waits longer than the interval demands *******/

  /** With the lock free, whichever task obtains it next is granted its slot at once when the interval since the last
      slot is over, and otherwise as soon as it is over and no sooner. */
  lemma EarliestGrant(min: real, s: State, t: Task, dt: real)
    requires s.holder == None && PhaseOf(s, t) == Queued && dt >= 0.0
    ensures Granted(min, s, [Enter(t), Stamp(t)], t, s.now) <==> s.now - s.last >= min
    ensures s.now - s.last < min ==>
              (Granted(min, s, [Enter(t), Tick(dt), Wake(t), Stamp(t)], t, s.now + dt) <==> s.now + dt - s.last >= min)
  {
    var woken := [Enter(t), Tick(dt), Wake(t)];
    RunTwo(min, s, Enter(t), Stamp(t));
    RunTwo(min, s, Enter(t), Tick(dt));
    assert [Enter(t), Tick(dt)] + [Wake(t)] == woken && woken + [Stamp(t)] == [Enter(t), Tick(dt), Wake(t), Stamp(t)];
    RunOne(min, s, [Enter(t), Tick(dt)], Wake(t));
    RunOne(min, s, woken, Stamp(t));
    hide Run;
  }

  // The events can happen, one after the other, and end with a slot of that task.
  ghost predicate Granted(min: real, s: State, events: seq<Event>, t: Task, at: real) {
    Run(min, s, events).Some? && Run(min, s, events).value.grants == s.grants + [Grant(t, at)]
  }

  lemma RunTwo(min: real, s: State, a: Event, b: Event)
    ensures Run(min, s, [a, b]) == match Next(min, s, a) case None => None case Some(s') => Next(min, s', b)
  {
    assert [] + [a] == [a] && [a] + [b] == [a, b];
    RunOne(min, s, [], a);
    RunOne(min, s, [a], b);
    assert Run(min, s, []) == Some(s);
    hide Run;
  }

  /******* Grants are paid for by calls *******/

  function GrantsTo(grants: seq<Grant>, t: Task): nat {
    if grants == [] then 0 else GrantsTo(grants[..|grants| - 1], t) + if grants[|grants| - 1].task == t then 1 else 0
  }

  function Calls(events: seq<Event>, t: Task): nat {
    if events == [] then 0 else Calls(events[..|events| - 1], t) + if events[|events| - 1] == Arrive(t) then 1 else 0
  }

  lemma CountsStep(before: seq<Event>, e: Event, t: Task)
    ensures Calls(before + [e], t) == Calls(before, t) + if e == Arrive(t) then 1 else 0
    ensures Cancels(before + [e], t) == Cancels(before, t) + if e == Cancel(t) then 1 else 0
  {
    assert (before + [e])[..|before|] == before;
  }

  // Arriving engages a task; a stamp or a cancellation lets it go.
  lemma GrantsStep(min: real, s: State, e: Event, t: Task)
    requires Next(min, s, e).Some?
    ensures var s' := Next(min, s, e).value;
            && GrantsTo(s'.grants, t) == GrantsTo(s.grants, t) + (if e == Stamp(t) then 1 else 0)
            && (if PhaseOf(s', t) == Idle then 0 else 1) + (if e == Stamp(t) || e == Cancel(t) then 1 else 0) ==
               (if PhaseOf(s, t) == Idle then 0 else 1) + (if e == Arrive(t) then 1 else 0)
  {
    if e.Stamp? {
      assert (s.grants + [Grant(e.task, s.now)])[..|s.grants|] == s.grants;
    }
  }

  /** A task is granted at most one slot for each call of acquire, and none for a cancelled one. */
  lemma {:induction false} OneGrantPerCall(min: real, now: real, events: seq<Event>, t: Task)
    requires Run(min, Start(now), events).Some?
    ensures var s := Run(min, Start(now), events).value;
            GrantsTo(s.grants, t) + Cancels(events, t) + (if PhaseOf(s, t) == Idle then 0 else 1) == Calls(events, t)
  {
    if events != [] {
      var before, e := events[..|events| - 1], events[|events| - 1];
      OneGrantPerCall(min, now, before, t);
      assert events == before + [e];
      RunOne(min, Start(now), before, e);
      CountsStep(before, e, t);
      hide Run, Calls, Cancels;
      GrantsStep(min, Run(min, Start(now), before).value, e, t);
    }
  }

  function Cancels(events: seq<Event>, t: Task): nat {
    if events == [] then 0 else Cancels(events[..|events| - 1], t) + if events[|events| - 1] == Cancel(t) then 1 else 0
  }
}
