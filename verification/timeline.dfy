// The virtual timeline as a value: pending events by identity, the queue of fired events, and the
// operations on them.

module Timelines {
  import opened Basics

  /** An event's identity: its deadline, then the order in which events were scheduled. */
  datatype EventId = EventId(deadline: nat, sequence: nat)

  datatype Kind =
    | WakeTask(task: nat)
    | Deadline(task: nat)
    | SignalTask(task: nat, signal: nat)
    | Device(source: string, payload: string)

  datatype Event = Event(id: EventId, kind: Kind)

  datatype Error = Overflow | WouldRewind | EventLimit | BeyondHorizon

  datatype Outcome<T> = Success(value: T) | Failure(error: Error)

  datatype Limits = Limits(maxEvents: nat, horizon: nat)

  datatype Timeline = Timeline(now: nat, nextSequence: nat, pending: map<EventId, Kind>, ready: seq<Event>, slept: nat)

  const Origin: Timeline := Timeline(0, 0, map[], [], 0)

  predicate Less(x: EventId, y: EventId) {
    x.deadline < y.deadline || (x.deadline == y.deadline && x.sequence < y.sequence)
  }

  predicate AtMost(x: EventId, y: EventId) {
    x == y || Less(x, y)
  }

  // ----- The order of pending events -----

  lemma LeastExists(ids: set<EventId>, id: EventId)
    requires id in ids
    ensures exists least :: least in ids && forall other :: other in ids ==> AtMost(least, other)
    decreases |ids|
  {
    if smaller :| smaller in ids && Less(smaller, id) {
      var rest := ids - {id};
      LeastExists(rest, smaller);
      var least :| least in rest && forall other :: other in rest ==> AtMost(least, other);
      assert forall other :: other in ids ==> other in rest || other == id;
      assert AtMost(least, smaller) && AtMost(least, id);
    } else {
      assert forall other :: other in ids ==> AtMost(id, other);
    }
  }

  /** The pending event that fires first. */
  function Least(pending: map<EventId, Kind>): (id: EventId)
    requires pending != map[]
    ensures id in pending && forall other :: other in pending ==> AtMost(id, other)
  {
    assert exists id :: id in pending by {
      assert (forall id :: id !in pending) ==> pending == map[];
    }
    assert exists id :: id in pending && forall other :: other in pending ==> AtMost(id, other) by {
      var id :| id in pending;
      LeastExists(pending.Keys, id);
      var least :| least in pending.Keys && forall other :: other in pending.Keys ==> AtMost(least, other);
      assert least in pending && forall other :: other in pending ==> AtMost(least, other);
    }
    var id :| id in pending && forall other :: other in pending ==> AtMost(id, other);
    id
  }

  /** The events due by an instant, in the order they fire. */
  function Due(pending: map<EventId, Kind>, target: nat): (due: seq<Event>)
    decreases |pending|
  {
    if pending == map[] || Least(pending).deadline > target then []
    else
      var id := Least(pending);
      MapRemoved(pending, id);
      [Event(id, pending[id])] + Due(pending - {id}, target)
  }

  /** The events not yet due at an instant. */
  function Later(pending: map<EventId, Kind>, target: nat): map<EventId, Kind> {
    map id | id in pending && id.deadline > target :: pending[id]
  }

  // ----- Operations -----

  function ScheduleAt(t: Timeline, limits: Limits, deadline: nat, kind: Kind): (Timeline, Outcome<EventId>) {
    if deadline < t.now then (t, Failure(WouldRewind))
    else if |t.pending| + |t.ready| >= limits.maxEvents then (t, Failure(EventLimit))
    else if deadline - t.now > limits.horizon then (t, Failure(BeyondHorizon))
    else if t.nextSequence >= U64_MAX then (t, Failure(Overflow))
    else
      var id := EventId(deadline, t.nextSequence);
      (t.(nextSequence := t.nextSequence + 1, pending := t.pending[id := kind]), Success(id))
  }

  function ScheduleAfter(t: Timeline, limits: Limits, delay: nat, kind: Kind): (Timeline, Outcome<EventId>) {
    if t.now + delay > U64_MAX then (t, Failure(Overflow)) else ScheduleAt(t, limits, t.now + delay, kind)
  }

  function Saturated(n: nat): nat {
    if n > U64_MAX then U64_MAX else n
  }

  function ScheduleWake(t: Timeline, limits: Limits, task: nat, duration: nat): (Timeline, Outcome<EventId>) {
    match ScheduleAfter(t, limits, duration, WakeTask(task))
    case (t1, Failure(e)) => (t1, Failure(e))
    case (t1, Success(id)) => (t1.(slept := Saturated(t1.slept + duration)), Success(id))
  }

  function Cancel(t: Timeline, id: EventId): (Timeline, bool) {
    (t.(pending := t.pending - {id}), id in t.pending)
  }

  predicate Owned(kind: Kind, task: nat) {
    !kind.Device? && kind.task == task
  }

  function Disowned(events: seq<Event>, task: nat): seq<Event> {
    if events == [] then []
    else (if Owned(events[0].kind, task) then [] else [events[0]]) + Disowned(events[1..], task)
  }

  /** Cancel everything that belongs to a task, pending or fired. */
  function CancelTask(t: Timeline, task: nat): Timeline {
    t.(pending := map id | id in t.pending && !Owned(t.pending[id], task) :: t.pending[id],
       ready := Disowned(t.ready, task))
  }

  /** The timeline moved to an instant, with everything due fired. */
  function Advanced(t: Timeline, target: nat): Timeline {
    t.(now := target, pending := Later(t.pending, target), ready := t.ready + Due(t.pending, target))
  }

  function AdvanceTo(t: Timeline, target: nat): (Timeline, Outcome<seq<Event>>) {
    if target < t.now then (t, Failure(WouldRewind)) else (Advanced(t, target), Success(Due(t.pending, target)))
  }

  function AdvanceToNext(t: Timeline): (Timeline, Outcome<seq<Event>>) {
    if t.pending == map[] then (t, Success([])) else AdvanceTo(t, Least(t.pending).deadline)
  }

  function PopReady(t: Timeline): (Timeline, seq<Event>) {
    if t.ready == [] then (t, []) else (t.(ready := t.ready[1..]), [t.ready[0]])
  }

  function Without(events: seq<Event>, id: EventId): seq<Event> {
    if events == [] then [] else (if events[0].id == id then [] else [events[0]]) + Without(events[1..], id)
  }

  // ----- Facts about the order -----

  lemma {:induction false} DueExactly(pending: map<EventId, Kind>, target: nat, e: Event)
    ensures e in Due(pending, target) <==> e.id in pending && pending[e.id] == e.kind && e.id.deadline <= target
    decreases |pending|
  {
    if pending == map[] {
    } else if Least(pending).deadline > target {
    } else {
      var id := Least(pending);
      MapRemoved(pending, id);
      DueExactly(pending - {id}, target, e);
    }
  }

  /** Strictly increasing in deadline, then sequence. */
  predicate InOrder(events: seq<Event>) {
    forall i, j :: 0 <= i < j < |events| ==> Less(events[i].id, events[j].id)
  }

  lemma {:induction false} DueInOrder(pending: map<EventId, Kind>, target: nat)
    ensures InOrder(Due(pending, target))
    decreases |pending|
  {
    if pending != map[] && Least(pending).deadline <= target {
      var id := Least(pending);
      MapRemoved(pending, id);
      DueInOrder(pending - {id}, target);
      var rest := Due(pending - {id}, target);
      forall j | 0 <= j < |rest|
        ensures Less(id, rest[j].id)
      {
        DueExactly(pending - {id}, target, rest[j]);
        assert AtMost(id, rest[j].id);
      }
    }
  }

  /** What is due by a later instant is what is due by an earlier one, then the rest. */
  lemma {:induction false} DueInHops(pending: map<EventId, Kind>, first: nat, target: nat)
    requires first <= target
    ensures Due(pending, target) == Due(pending, first) + Due(Later(pending, first), target)
    ensures Later(Later(pending, first), target) == Later(pending, target)
    decreases |pending|
  {
    if pending == map[] {
      assert Later(pending, first) == map[];
    } else if Least(pending).deadline > first {
      assert Later(pending, first) == pending;
    } else {
      var id := Least(pending);
      MapRemoved(pending, id);
      DueInHops(pending - {id}, first, target);
      assert Later(pending - {id}, first) == Later(pending, first);
    }
  }

  /** Advancing in two hops leaves the same timeline as one jump. */
  lemma HopsAreOneJump(t: Timeline, first: nat, target: nat)
    requires t.now <= first <= target
    ensures AdvanceTo(AdvanceTo(t, first).0, target).0 == AdvanceTo(t, target).0
  {
    DueInHops(t.pending, first, target);
  }

  /** The least event left once an event is gone. */
  lemma {:induction false} DueWithout(pending: map<EventId, Kind>, target: nat, id: EventId)
    ensures Without(Due(pending, target), id) == Due(pending - {id}, target)
    decreases |pending|
  {
    if pending == map[] {
      assert pending - {id} == pending;
    } else {
      var least := Least(pending);
      MapRemoved(pending, least);
      if least.deadline > target {
        NothingDue(pending - {id}, target);
      } else if least == id {
        AbsentWithout(pending - {id}, target, id);
      } else {
        DueWithout(pending - {least}, target, id);
        LeastStays(pending, id);
        assert pending - {least} - {id} == pending - {id} - {least};
      }
    }
  }

  lemma LeastStays(pending: map<EventId, Kind>, id: EventId)
    requires pending != map[] && Least(pending) != id
    ensures pending - {id} != map[] && Least(pending - {id}) == Least(pending)
  {
    assert Least(pending) in pending - {id};
  }

  lemma NothingDue(pending: map<EventId, Kind>, target: nat)
    requires forall id :: id in pending ==> id.deadline > target
    ensures Due(pending, target) == []
  {
  }

  lemma AbsentWithout(pending: map<EventId, Kind>, target: nat, id: EventId)
    requires id !in pending
    ensures Without(Due(pending, target), id) == Due(pending, target)
  {
    var due := Due(pending, target);
    forall i | 0 <= i < |due|
      ensures due[i].id != id
    {
      DueExactly(pending, target, due[i]);
    }
    WithoutNothing(due, id);
  }

  lemma {:induction false} WithoutNothing(events: seq<Event>, id: EventId)
    requires forall i :: 0 <= i < |events| ==> events[i].id != id
    ensures Without(events, id) == events
  {
    if events != [] {
      WithoutNothing(events[1..], id);
    }
  }

  lemma {:induction false} WithoutBoth(x: seq<Event>, y: seq<Event>, id: EventId)
    ensures Without(x + y, id) == Without(x, id) + Without(y, id)
  {
    if x == [] {
      assert x + y == y;
    } else {
      assert (x + y)[1..] == x[1..] + y;
      WithoutBoth(x[1..], y, id);
    }
  }

  function AdvanceThrough(t: Timeline, hops: seq<nat>): Timeline
    decreases |hops|
  {
    if hops == [] then t else AdvanceThrough(AdvanceTo(t, hops[0]).0, hops[1..])
  }

  /** Advancing in any number of hops leaves the same timeline as one jump to the last. */
  lemma {:induction false} ManyHopsAreOneJump(t: Timeline, hops: seq<nat>)
    requires hops != [] && t.now <= hops[0] && forall i, j :: 0 <= i < j < |hops| ==> hops[i] <= hops[j]
    ensures AdvanceThrough(t, hops) == AdvanceTo(t, hops[|hops| - 1]).0
    decreases |hops|
  {
    hide Advanced, Due, Later;
    if |hops| == 1 {
      assert hops[1..] == [];
    } else {
      var t1 := AdvanceTo(t, hops[0]).0;
      Arrives(t, hops[0]);
      ManyHopsAreOneJump(t1, hops[1..]);
      HopsAreOneJump(t, hops[0], hops[|hops| - 1]);
    }
  }

  lemma Arrives(t: Timeline, target: nat)
    requires t.now <= target
    ensures AdvanceTo(t, target).0.now == target
  {
  }

  // ----- Blocking a task -----

  datatype Block = Completed | Interrupted(event: Event)

  /** The task's deadlines due by an instant. */
  function Interrupting(pending: map<EventId, Kind>, task: nat, target: nat): map<EventId, Kind> {
    map id | id in pending && pending[id] == Deadline(task) && id.deadline <= target :: pending[id]
  }

  /** What blocking a task for a duration comes to: the task's first deadline within the duration
      interrupts it, or else the duration passes. Every other event due by then is ready in order. */
  function BlockTask(t: Timeline, limits: Limits, task: nat, duration: nat): (Timeline, Outcome<Block>) {
    match ScheduleWake(t, limits, task, duration)
    case (_, Failure(e)) => (t, Failure(e))
    case (t1, Success(_)) =>
      var cut := Interrupting(t.pending, task, t.now + duration);
      if cut == map[] then
        (Advanced(t, t.now + duration).(nextSequence := t1.nextSequence, slept := t1.slept), Success(Completed))
      else
        var id := Least(cut);
        (Timeline(id.deadline, t1.nextSequence, Later(t.pending, id.deadline),
                  t.ready + Due(t.pending - {id}, id.deadline), t1.slept),
         Success(Interrupted(Event(id, Deadline(task)))))
  }
}
