// The timeline as the object the machine updates, with the loops that fire events and block a task.

module TimelineObject {
  import opened Basics
  import opened Timelines

  /** Identities are used once: everything pending or ready was scheduled before the next sequence
      number, nothing is both, and nothing pending is overdue. */
  ghost predicate Proper(t: Timeline) {
    && (forall id :: id in t.pending ==> id.sequence < t.nextSequence && id.deadline >= t.now)
    && (forall i :: 0 <= i < |t.ready| ==> t.ready[i].id.sequence < t.nextSequence && t.ready[i].id !in t.pending)
  }

  class VirtualTimeline {
    const limits: Limits
    var now: nat
    var nextSequence: nat
    var pending: map<EventId, Kind>
    var ready: seq<Event>
    var slept: nat

    constructor (limits: Limits)
      ensures View() == Origin && this.limits == limits
    {
      this.limits := limits;
      now, nextSequence, pending, ready, slept := 0, 0, map[], [], 0;
    }

    ghost function View(): Timeline
      reads this
    {
      Timeline(now, nextSequence, pending, ready, slept)
    }

    method Schedule(deadline: nat, kind: Kind) returns (r: Outcome<EventId>)
      modifies this
      ensures (View(), r) == ScheduleAt(old(View()), limits, deadline, kind)
    {
      if deadline < now {
        return Failure(WouldRewind);
      }
      if |pending| + |ready| >= limits.maxEvents {
        return Failure(EventLimit);
      }
      if deadline - now > limits.horizon {
        return Failure(BeyondHorizon);
      }
      if nextSequence >= U64_MAX {
        return Failure(Overflow);
      }
      var id := EventId(deadline, nextSequence);
      nextSequence := nextSequence + 1;
      pending := pending[id := kind];
      return Success(id);
    }

    method ScheduleWakeAfter(task: nat, duration: nat) returns (r: Outcome<EventId>)
      modifies this
      ensures (View(), r) == ScheduleWake(old(View()), limits, task, duration)
    {
      if now + duration > U64_MAX {
        return Failure(Overflow);
      }
      r := Schedule(now + duration, WakeTask(task));
      if r.Success? {
        slept := Saturated(slept + duration);
      }
    }

    method CancelEvent(id: EventId) returns (cancelled: bool)
      modifies this`pending
      ensures (View(), cancelled) == Cancel(old(View()), id)
    {
      cancelled := id in pending;
      pending := pending - {id};
    }

    /** Cancel every event of a task, whether pending or fired, and say how many were pending. */
    method CancelTaskEvents(task: nat) returns (count: nat)
      modifies this`pending, this`ready
      ensures View() == CancelTask(old(View()), task)
      ensures count == |old(pending)| - |pending|
    {
      hide Disowned;
      var rest := pending;
      count := 0;
      while rest != map[]
        invariant ready == old(ready) && rest.Keys <= pending.Keys && pending.Keys <= old(pending).Keys &&
                  count + |pending| == |old(pending)|
        invariant forall id :: id in pending ==> pending[id] == old(pending)[id]
        invariant forall id :: id in old(pending) ==> (id in pending <==> id in rest || !Owned(old(pending)[id], task))
        decreases |rest|
      {
        var id := Least(rest);
        MapRemoved(rest, id);
        if Owned(pending[id], task) {
          MapRemoved(pending, id);
          pending := pending - {id};
          count := count + 1;
        }
        rest := rest - {id};
      }
      DisownReady(task);
      assert pending == CancelTask(old(View()), task).pending;
    }

    method DisownReady(task: nat)
      modifies this`ready
      ensures ready == Disowned(old(ready), task)
    {
      hide Disowned;
      var kept: seq<Event> := [];
      var i := 0;
      assert ready[0..] == ready;
      while i < |ready|
        invariant i <= |ready| && ready == old(ready) && kept + Disowned(ready[i..], task) == Disowned(ready, task)
      {
        DisownStep(ready, i, task);
        if !Owned(ready[i].kind, task) {
          kept := kept + [ready[i]];
        }
        i := i + 1;
      }
      DisownStep(ready, i, task);
      ready := kept;
    }

    /** Move to an instant and fire everything due, smallest identity first. */
    method Advance(target: nat) returns (r: Outcome<seq<Event>>)
      modifies this
      ensures (View(), r) == AdvanceTo(old(View()), target)
    {
      hide Due, Later;
      if target < now {
        return Failure(WouldRewind);
      }
      now := target;
      var fired: seq<Event> := [];
      while pending != map[] && Least(pending).deadline <= target
        invariant now == target && nextSequence == old(nextSequence) && slept == old(slept)
        invariant ready == old(ready) + fired && fired + Due(pending, target) == Due(old(pending), target)
        invariant Later(pending, target) == Later(old(pending), target)
        decreases |pending|
      {
        var id := Least(pending);
        FireFirst(pending, target);
        var event := Event(id, pending[id]);
        pending := pending - {id};
        ready := ready + [event];
        fired := fired + [event];
      }
      FiredAll(pending, target);
      assert fired + [] == fired;
      return Success(fired);
    }

    method AdvanceNext() returns (r: Outcome<seq<Event>>)
      modifies this
      ensures (View(), r) == AdvanceToNext(old(View()))
    {
      if pending == map[] {
        return Success([]);
      }
      r := Advance(Least(pending).deadline);
    }

    method Pop() returns (event: seq<Event>)
      modifies this`ready
      ensures (View(), event) == PopReady(old(View()))
    {
      if ready == [] {
        return [];
      }
      event := [ready[0]];
      ready := ready[1..];
    }

    method RemoveReady(id: EventId)
      modifies this`ready
      ensures ready == Without(old(ready), id)
    {
      var kept: seq<Event> := [];
      var i := 0;
      while i < |ready|
        invariant i <= |ready| && ready == old(ready) && kept + Without(ready[i..], id) == Without(ready, id)
      {
        if ready[i].id != id {
          kept := kept + [ready[i]];
        }
        i := i + 1;
      }
      ready := kept;
    }

    /** Fire batch after batch until the task's wake or one of its deadlines comes up. */
    method BlockTaskFor(task: nat, duration: nat) returns (r: Outcome<Block>)
      requires Proper(View())
      modifies this
      ensures (View(), r) == BlockTask(old(View()), limits, task, duration)
    {
      hide Due, Later, Advanced, Interrupting, Proper, Least, ScheduleWake;
      ghost var t := View();
      var scheduled := ScheduleWakeAfter(task, duration);
      if scheduled.Failure? {
        ScheduleFails(t, limits, task, duration);
        return Failure(scheduled.error);
      }
      var wake := scheduled.value;
      ghost var t1 := View();
      WakeScheduled(t, limits, task, duration);
      while true
        invariant Unstopped(t1, View(), wake, task)
        decreases |pending|
      {
        ghost var before := View();
        NextBatch(t1, before, wake, task);
        ghost var at := Least(before.pending).deadline;
        var batch := AdvanceNext();
        var fired := batch.value;
        var i := 0;
        while i < |fired|
          invariant i <= |fired| && View() == Advanced(t1, at)
          invariant NoneStops(fired[..i], wake, task)
        {
          var event := fired[i];
          if event == Event(wake, WakeTask(task)) {
            WakeComes(t, limits, t1, before, wake, task, duration, i);
            RemoveReady(wake);
            return Success(Completed);
          }
          if event.kind == Deadline(task) {
            DeadlineComes(t, limits, t1, before, wake, task, duration, i);
            var _ := CancelEvent(wake);
            RemoveReady(wake);
            RemoveReady(event.id);
            return Success(Interrupted(event));
          }
          NotAStop(t1, before, wake, task, i);
          i := i + 1;
        }
        assert fired[..|fired|] == fired;
        BatchPasses(t1, before, wake, task);
      }
    }
  }

  // ----- Facts the loops use -----

  lemma DisownStep(events: seq<Event>, i: nat, task: nat)
    requires i <= |events|
    ensures Disowned(events[i..], task) ==
            if i == |events| then []
            else (if Owned(events[i].kind, task) then [] else [events[i]]) + Disowned(events[i + 1..], task)
  {
    if i < |events| {
      assert events[i..][1..] == events[i + 1..];
    }
  }

  lemma FireFirst(pending: map<EventId, Kind>, target: nat)
    requires pending != map[] && Least(pending).deadline <= target
    ensures var id := Least(pending);
            && Due(pending, target) == [Event(id, pending[id])] + Due(pending - {id}, target)
            && Later(pending - {id}, target) == Later(pending, target) && |pending - {id}| < |pending|
  {
    MapRemoved(pending, Least(pending));
  }

  lemma FiredAll(pending: map<EventId, Kind>, target: nat)
    requires pending == map[] || Least(pending).deadline > target
    ensures Due(pending, target) == [] && Later(pending, target) == pending
  {
  }

  predicate Stop(e: Event, wake: EventId, task: nat) {
    e.id == wake || e.kind == Deadline(task)
  }

  predicate NoneStops(events: seq<Event>, wake: EventId, task: nat) {
    forall i :: 0 <= i < |events| ==> !Stop(events[i], wake, task)
  }

  /** The task's wake is scheduled last, and nothing that could stop the wait has fired. */
  ghost predicate Unstopped(t1: Timeline, u: Timeline, wake: EventId, task: nat) {
    && wake in t1.pending && t1.pending[wake] == WakeTask(task)
    && (forall id :: id in t1.pending ==> id.deadline >= t1.now)
    && (u == t1 || (u.now >= t1.now && u == Advanced(t1, u.now)))
    && (forall id :: id in t1.pending && Stop(Event(id, t1.pending[id]), wake, task) ==> id in u.pending)
  }

  lemma ScheduleFails(t: Timeline, limits: Limits, task: nat, duration: nat)
    ensures ScheduleWake(t, limits, task, duration).1.Failure? ==> ScheduleWake(t, limits, task, duration).0 == t
  {
  }

  /** What scheduling the wake leaves behind. */
  ghost predicate WakeAdded(t: Timeline, t1: Timeline, wake: EventId, task: nat, duration: nat) {
    && wake == EventId(t.now + duration, t.nextSequence) && wake !in t.pending
    && t1.now == t.now && t1.ready == t.ready && t1.pending == t.pending[wake := WakeTask(task)]
    && t1.nextSequence == t.nextSequence + 1
    && (forall id :: id in t.pending ==> id.sequence < wake.sequence && id.deadline >= t.now)
    && (forall i :: 0 <= i < |t.ready| ==> t.ready[i].id != wake && t.ready[i].id !in t.pending)
  }

  lemma WakeScheduled(t: Timeline, limits: Limits, task: nat, duration: nat)
    requires Proper(t) && ScheduleWake(t, limits, task, duration).1.Success?
    ensures WakeAdded(t, ScheduleWake(t, limits, task, duration).0, ScheduleWake(t, limits, task, duration).1.value,
                      task, duration)
    ensures Unstopped(ScheduleWake(t, limits, task, duration).0, ScheduleWake(t, limits, task, duration).0,
                      ScheduleWake(t, limits, task, duration).1.value, task)
  {
  }

  /** The next batch of events: everything pending with the least deadline. */
  function Batch(u: Timeline): seq<Event>
    requires u.pending != map[]
  {
    Due(u.pending, Least(u.pending).deadline)
  }

  lemma NextBatch(t1: Timeline, u: Timeline, wake: EventId, task: nat)
    requires Unstopped(t1, u, wake, task)
    ensures u.pending != map[] && u.now <= Least(u.pending).deadline
    ensures AdvanceToNext(u) == (Advanced(t1, Least(u.pending).deadline), Success(Batch(u)))
    ensures |Advanced(t1, Least(u.pending).deadline).pending| < |u.pending|
  {
    hide Due;
    assert wake in u.pending;
    var d := Least(u.pending).deadline;
    StaysTimely(t1, u, wake, task, Least(u.pending));
    if u != t1 {
      DueInHops(t1.pending, u.now, d);
      HopAgain(t1, u.now, d);
    }
    LaterShrinks(u.pending, d);
  }

  lemma StaysTimely(t1: Timeline, u: Timeline, wake: EventId, task: nat, id: EventId)
    requires Unstopped(t1, u, wake, task) && id in u.pending
    ensures id.deadline >= u.now && id in t1.pending && u.pending[id] == t1.pending[id]
  {
    hide Due;
  }

  lemma HopAgain(t1: Timeline, first: nat, target: nat)
    requires first <= target
    ensures Advanced(Advanced(t1, first), target) == Advanced(t1, target)
  {
    hide Due, Later;
    DueInHops(t1.pending, first, target);
    assert t1.ready + (Due(t1.pending, first) + Due(Later(t1.pending, first), target)) ==
           t1.ready + Due(t1.pending, first) + Due(Later(t1.pending, first), target);
  }

  lemma LaterShrinks(pending: map<EventId, Kind>, target: nat)
    requires pending != map[] && Least(pending).deadline <= target
    ensures |Later(pending, target)| < |pending|
  {
    var id := Least(pending);
    assert Later(pending, target).Keys <= (pending - {id}).Keys;
    MapRemoved(pending, id);
    FewerKeys(Later(pending, target), pending - {id});
  }

  /** Membership in a batch. */
  lemma BatchExactly(t1: Timeline, u: Timeline, wake: EventId, task: nat, e: Event)
    requires Unstopped(t1, u, wake, task) && u.pending != map[]
    ensures e in Batch(u) <==>
            e.id in u.pending && u.pending[e.id] == e.kind && e.id.deadline <= Least(u.pending).deadline
    ensures e in Batch(u) ==>
              e.id.deadline == Least(u.pending).deadline && e.id in t1.pending && t1.pending[e.id] == e.kind
  {
    hide Due, Later, Advanced;
    DueExactly(u.pending, Least(u.pending).deadline, e);
    if e in Batch(u) {
      StaysTimely(t1, u, wake, task, e.id);
    }
  }

  lemma NotAStop(t1: Timeline, u: Timeline, wake: EventId, task: nat, i: nat)
    requires Unstopped(t1, u, wake, task) && u.pending != map[] && i < |Batch(u)|
    requires NoneStops(Batch(u)[..i], wake, task)
    requires Batch(u)[i] != Event(wake, WakeTask(task)) && Batch(u)[i].kind != Deadline(task)
    ensures NoneStops(Batch(u)[..i + 1], wake, task)
  {
    hide Batch, Advanced;
    BatchExactly(t1, u, wake, task, Batch(u)[i]);
    assert Batch(u)[..i + 1] == Batch(u)[..i] + [Batch(u)[i]];
  }

  lemma BatchPasses(t1: Timeline, u: Timeline, wake: EventId, task: nat)
    requires Unstopped(t1, u, wake, task) && u.pending != map[] && NoneStops(Batch(u), wake, task)
    ensures Unstopped(t1, Advanced(t1, Least(u.pending).deadline), wake, task)
  {
    hide Batch, Due;
    var d := Least(u.pending).deadline;
    NextBatch(t1, u, wake, task);
    forall id | id in t1.pending && Stop(Event(id, t1.pending[id]), wake, task)
      ensures id in Later(t1.pending, d)
    {
      StopsLater(t1, u, wake, task, id);
    }
    TimelyAdvance(t1, u, wake, task);
  }

  lemma TimelyAdvance(t1: Timeline, u: Timeline, wake: EventId, task: nat)
    requires Unstopped(t1, u, wake, task) && u.pending != map[]
    ensures Least(u.pending).deadline >= t1.now
  {
    StaysTimely(t1, u, wake, task, Least(u.pending));
  }

  lemma StopsLater(t1: Timeline, u: Timeline, wake: EventId, task: nat, id: EventId)
    requires Unstopped(t1, u, wake, task) && u.pending != map[] && NoneStops(Batch(u), wake, task)
    requires id in t1.pending && Stop(Event(id, t1.pending[id]), wake, task)
    ensures id.deadline > Least(u.pending).deadline
  {
    hide Batch, Advanced;
    StaysTimely(t1, u, wake, task, id);
    var e := Event(id, t1.pending[id]);
    BatchExactly(t1, u, wake, task, e);
    StopNotAmong(Batch(u), wake, task, e);
  }

  lemma StopNotAmong(events: seq<Event>, wake: EventId, task: nat, e: Event)
    requires NoneStops(events, wake, task) && Stop(e, wake, task)
    ensures e !in events
  {
  }

  lemma AfterPrefix(events: seq<Event>, i: nat, e: Event)
    requires InOrder(events) && i < |events| && e in events && e !in events[..i]
    ensures AtMost(events[i].id, e.id)
  {
    assert events == events[..i] + events[i..];
    var k :| 0 <= k < |events[i..]| && events[i..][k] == e;
    assert events[i + k] == e;
  }

  /** An event that could stop the wait and comes no later than position `i` of a batch whose earlier
      events do not is the one at `i`, or sorts after it. */
  lemma FirstStop(t1: Timeline, u: Timeline, wake: EventId, task: nat, i: nat, id: EventId)
    requires Unstopped(t1, u, wake, task) && u.pending != map[] && i < |Batch(u)|
    requires NoneStops(Batch(u)[..i], wake, task)
    requires id in t1.pending && Stop(Event(id, t1.pending[id]), wake, task)
    ensures AtMost(Batch(u)[i].id, id)
  {
    hide Batch, Advanced;
    var e := Event(id, t1.pending[id]);
    StaysTimely(t1, u, wake, task, id);
    BatchExactly(t1, u, wake, task, e);
    BatchExactly(t1, u, wake, task, Batch(u)[i]);
    BatchInOrder(u);
    StopNotAmong(Batch(u)[..i], wake, task, e);
    if e in Batch(u) {
      AfterPrefix(Batch(u), i, e);
    }
  }

  lemma BatchInOrder(u: Timeline)
    requires u.pending != map[]
    ensures InOrder(Batch(u))
  {
    DueInOrder(u.pending, Least(u.pending).deadline);
  }

  // ----- How the wait ends -----

  /** The wake taken out of what fired leaves what fires without it. */
  lemma WakeTakenOut(t: Timeline, t1: Timeline, wake: EventId, task: nat, duration: nat, target: nat)
    requires WakeAdded(t, t1, wake, task, duration)
    ensures Without(Advanced(t1, target).ready, wake) == t.ready + Due(t.pending, target)
    ensures Later(t1.pending, target) - {wake} == Later(t.pending, target)
    ensures wake.deadline <= target ==> Later(t1.pending, target) == Later(t.pending, target)
  {
    hide Due;
    WithoutBoth(t.ready, Due(t1.pending, target), wake);
    WithoutNothing(t.ready, wake);
    DueWithout(t1.pending, target, wake);
    assert t1.pending - {wake} == t.pending;
  }

  lemma WakeComes(t: Timeline, limits: Limits, t1: Timeline, u: Timeline, wake: EventId, task: nat, duration: nat,
                  i: nat)
    requires WakeAdded(t, t1, wake, task, duration) && ScheduleWake(t, limits, task, duration) == (t1, Success(wake))
    requires Unstopped(t1, u, wake, task) && u.pending != map[] && i < |Batch(u)|
    requires NoneStops(Batch(u)[..i], wake, task)
    requires Batch(u)[i] == Event(wake, WakeTask(task))
    ensures var v := Advanced(t1, Least(u.pending).deadline);
            BlockTask(t, limits, task, duration) == (v.(ready := Without(v.ready, wake)), Success(Completed))
  {
    hide Batch, ScheduleWake, Due, Later, Unstopped;
    BatchExactly(t1, u, wake, task, Batch(u)[i]);
    WakeTakenOut(t, t1, wake, task, duration, wake.deadline);
    var cut := Interrupting(t.pending, task, wake.deadline);
    forall id | id in cut
      ensures false
    {
      FirstStop(t1, u, wake, task, i, id);
    }
    assert cut == map[];
  }

  lemma DeadlineComes(t: Timeline, limits: Limits, t1: Timeline, u: Timeline, wake: EventId, task: nat, duration: nat,
                      i: nat)
    requires WakeAdded(t, t1, wake, task, duration) && ScheduleWake(t, limits, task, duration) == (t1, Success(wake))
    requires Unstopped(t1, u, wake, task) && u.pending != map[] && i < |Batch(u)|
    requires NoneStops(Batch(u)[..i], wake, task)
    requires Batch(u)[i].kind == Deadline(task)
    ensures var v := Advanced(t1, Least(u.pending).deadline);
            BlockTask(t, limits, task, duration) ==
            (v.(pending := v.pending - {wake}, ready := Without(Without(v.ready, wake), Batch(u)[i].id)),
             Success(Interrupted(Batch(u)[i])))
  {
    hide Batch, ScheduleWake, Due, Later, Unstopped;
    var e := Batch(u)[i];
    BatchExactly(t1, u, wake, task, e);
    WakeStops(t1, u, wake, task);
    FirstStop(t1, u, wake, task, i, wake);
    var cut := Interrupting(t.pending, task, wake.deadline);
    assert e.id in cut;
    forall id | id in cut
      ensures AtMost(e.id, id)
    {
      FirstStop(t1, u, wake, task, i, id);
    }
    assert Least(cut) == e.id;
    WakeTakenOut(t, t1, wake, task, duration, e.id.deadline);
    WithoutBoth(t.ready, Due(t.pending, e.id.deadline), e.id);
    WithoutNothing(t.ready, e.id);
    DueWithout(t.pending, e.id.deadline, e.id);
  }

  lemma WakeStops(t1: Timeline, u: Timeline, wake: EventId, task: nat)
    requires Unstopped(t1, u, wake, task)
    ensures wake in t1.pending && t1.pending[wake] == WakeTask(task)
  {
  }
}
