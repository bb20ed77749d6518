// Whose events a timeline holds: what cancelling a task takes away, that nothing of it fires later, and
// that every event fires as what it was scheduled.

module TimelineOwners {
  import opened Basics
  import opened Timelines
  import opened TimelineRuns

  /** An event of a task: its wake, its deadline or a signal to it. */
  predicate Belongs(kind: Kind, task: nat) {
    match kind
    case WakeTask(owner) => owner == task
    case Deadline(owner) => owner == task
    case SignalTask(owner, _) => owner == task
    case Device(_, _) => false
  }

  // ----- Cancelling -----

  ghost predicate Increasing(places: seq<nat>) {
    forall i, j :: 0 <= i < j < |places| ==> places[i] < places[j]
  }

  /** The events at some places of a queue. */
  ghost predicate Standing(before: seq<Event>, after: seq<Event>, places: seq<nat>) {
    |places| == |after| && forall i :: 0 <= i < |places| ==> places[i] < |before| && after[i] == before[places[i]]
  }

  /** Exactly the places of a queue that do not belong to a task. */
  ghost predicate Others(before: seq<Event>, task: nat, places: seq<nat>) {
    forall k :: 0 <= k < |before| ==> (k in places <==> !Belongs(before[k].kind, task))
  }

  /** `after` is `before` without the events of a task: the other ones, in the same order. */
  ghost predicate LeftOver(before: seq<Event>, after: seq<Event>, task: nat, places: seq<nat>) {
    Increasing(places) && Standing(before, after, places) && Others(before, task, places)
  }

  /** Cancelling a task removes its wakes, deadlines and signals, pending or fired, and nothing else: every
      other pending event keeps its time and kind, every other fired event its place in the order. */
  lemma CancelTaskExactly(t: Timeline, task: nat)
    ensures var u := CancelTask(t, task);
            && (forall id :: id in u.pending <==> id in t.pending && !Belongs(t.pending[id], task))
            && (forall id :: id in u.pending ==> u.pending[id] == t.pending[id])
            && (exists places :: LeftOver(t.ready, u.ready, task, places))
            && u.now == t.now && u.nextSequence == t.nextSequence && u.slept == t.slept
  {
    hide LeftOver, Disowned;
    var places := Places(t.ready, task);
    assert LeftOver(t.ready, CancelTask(t, task).ready, task, places);
  }

  lemma {:induction false} Places(events: seq<Event>, task: nat) returns (places: seq<nat>)
    ensures LeftOver(events, Disowned(events, task), task, places)
    decreases |events|
  {
    places := [];
    if events != [] {
      hide LeftOver, Disowned;
      var n := |events| - 1;
      places := Places(events[..n], task);
      assert events == events[..n] + [events[n]];
      OneMore(events[..n], events[n], task);
      LeftOverMore(events[..n], Disowned(events[..n], task), task, places, events[n]);
      if !Belongs(events[n].kind, task) {
        places := places + [n];
      }
    }
  }

  lemma {:induction false} OneMore(events: seq<Event>, e: Event, task: nat)
    ensures Disowned(events + [e], task) == Disowned(events, task) + if Belongs(e.kind, task) then [] else [e]
    decreases |events|
  {
    if events == [] {
      assert Disowned([e][1..], task) == [];
      assert events + [e] == [e];
    } else {
      assert (events + [e])[1..] == events[1..] + [e];
      OneMore(events[1..], e, task);
    }
  }

  lemma LeftOverMore(before: seq<Event>, after: seq<Event>, task: nat, places: seq<nat>, e: Event)
    requires LeftOver(before, after, task, places)
    ensures if Belongs(e.kind, task) then LeftOver(before + [e], after, task, places)
            else LeftOver(before + [e], after + [e], task, places + [|before|])
  {
    hide Belongs;
    var all := before + [e];
    assert forall k :: 0 <= k < |before| ==> all[k] == before[k];
    assert all[|before|] == e && |before| !in places;
  }

  /** What is left was there, and does not belong to the task. */
  lemma LeftOverMembers(before: seq<Event>, after: seq<Event>, task: nat, places: seq<nat>)
    requires LeftOver(before, after, task, places)
    ensures forall e :: e in after ==> e in before && !Belongs(e.kind, task)
  {
    hide Belongs;
    forall e | e in after
      ensures e in before && !Belongs(e.kind, task)
    {
      var i :| 0 <= i < |after| && after[i] == e;
      assert places[i] in places && before[places[i]] == e;
    }
  }

  // ----- Runs -----

  /** No event of a task is pending or fired. */
  ghost predicate Quiet(t: Timeline, task: nat) {
    && (forall id :: id in t.pending ==> !Belongs(t.pending[id], task))
    && (forall e :: e in t.ready ==> !Belongs(e.kind, task))
  }

  /** An operation that schedules something for a task. */
  predicate Schedules(op: Operation, task: nat) {
    match op
    case Schedule(_, kind) => Belongs(kind, task)
    case Sleep(owner, _) => owner == task
    case BlockOn(owner, _) => owner == task
    case _ => false
  }

  /** The events two records differ by. */
  ghost predicate FiresNone(h: History, after: History, task: nat) {
    && h.fired <= after.fired
    && (forall i :: |h.fired| <= i < |after.fired| ==> !Belongs(after.fired[i].kind, task))
  }

  lemma CancelQuiets(t: Timeline, task: nat)
    ensures Quiet(CancelTask(t, task), task)
  {
    hide CancelTask, LeftOver, Belongs;
    CancelTaskExactly(t, task);
    var u := CancelTask(t, task);
    var places :| LeftOver(t.ready, u.ready, task, places);
    LeftOverMembers(t.ready, u.ready, task, places);
  }

  lemma DueQuiet(pending: map<EventId, Kind>, target: nat, task: nat)
    requires forall id :: id in pending ==> !Belongs(pending[id], task)
    ensures forall e :: e in Due(pending, target) ==> !Belongs(e.kind, task)
  {
    forall e | e in Due(pending, target)
      ensures !Belongs(e.kind, task)
    {
      DueExactly(pending, target, e);
    }
  }

  lemma AdvanceQuiet(h: History, target: nat, task: nat)
    requires Quiet(h.timeline, task)
    ensures var after := Fire(h, AdvanceTo(h.timeline, target));
            Quiet(after.timeline, task) && FiresNone(h, after, task)
  {
    hide Due;
    DueQuiet(h.timeline.pending, target, task);
  }

  lemma BlockQuiet(h: History, limits: Limits, other: nat, duration: nat, task: nat)
    requires Quiet(h.timeline, task) && other != task
    ensures var after := Blocked(h, limits, other, duration); Quiet(after.timeline, task) && FiresNone(h, after, task)
  {
    hide Due, Least;
    var t := h.timeline;
    var r := BlockTask(t, limits, other, duration).1;
    if r.Success? {
      var now := BlockTask(t, limits, other, duration).0.now;
      var wake := EventId(t.now + duration, t.nextSequence);
      DueQuiet(t.pending[wake := WakeTask(other)], now, task);
      if r.value.Completed? {
        DueQuiet(t.pending, now, task);
      } else {
        DueQuiet(t.pending - {r.value.event.id}, now, task);
      }
    }
  }

  lemma CancelOtherQuiet(t: Timeline, other: nat, task: nat)
    requires Quiet(t, task)
    ensures Quiet(CancelTask(t, other), task)
  {
    hide CancelTask, LeftOver, Belongs;
    CancelTaskExactly(t, other);
    var u := CancelTask(t, other);
    var places :| LeftOver(t.ready, u.ready, other, places);
    LeftOverMembers(t.ready, u.ready, other, places);
  }

  lemma StepQuiet(h: History, limits: Limits, op: Operation, task: nat)
    requires Quiet(h.timeline, task) && !Schedules(op, task)
    ensures var after := Apply(h, limits, op); Quiet(after.timeline, task) && FiresNone(h, after, task)
  {
    hide CancelTask, Blocked, AdvanceTo;
    match op
    case Advance(target) => AdvanceQuiet(h, target, task);
    case AdvanceNext =>
      if h.timeline.pending != map[] {
        AdvanceQuiet(h, Least(h.timeline.pending).deadline, task);
      }
    case CancelAll(other) => CancelOtherQuiet(h.timeline, other, task);
    case BlockOn(other, duration) => BlockQuiet(h, limits, other, duration, task);
    case _ =>
  }

  lemma {:induction false} RunQuiet(h: History, limits: Limits, ops: seq<Operation>, task: nat)
    requires Quiet(h.timeline, task) && forall i :: 0 <= i < |ops| ==> !Schedules(ops[i], task)
    ensures var after := Run(h, limits, ops); Quiet(after.timeline, task) && FiresNone(h, after, task)
    decreases |ops|
  {
    hide Apply, Quiet;
    if ops != [] {
      StepQuiet(h, limits, ops[0], task);
      RunQuiet(Apply(h, limits, ops[0]), limits, ops[1..], task);
    }
  }

  /** After a task is cancelled, in every run that schedules nothing for it, none of its events fires and none
      is popped. */
  lemma CancelledStaysSilent(h: History, limits: Limits, task: nat, ops: seq<Operation>)
    requires forall i :: 0 <= i < |ops| ==> !Schedules(ops[i], task)
    ensures var after := Run(Apply(h, limits, CancelAll(task)), limits, ops);
            FiresNone(h, after, task) && forall e :: e in PopReady(after.timeline).1 ==> !Belongs(e.kind, task)
  {
    hide CancelTask, Run;
    CancelQuiets(h.timeline, task);
    RunQuiet(Apply(h, limits, CancelAll(task)), limits, ops, task);
  }

  // ----- Scheduling -----

  /** Scheduling succeeds exactly for an instant that is not past and within the horizon, below the event
      limit and while sequence numbers last; then the event is pending under that instant and the next
      sequence number, and everything else is as before. */
  lemma ScheduleExactly(t: Timeline, limits: Limits, deadline: nat, kind: Kind)
    ensures var (u, r) := ScheduleAt(t, limits, deadline, kind);
            && (r.Success? <==> t.now <= deadline <= t.now + limits.horizon && t.nextSequence < U64_MAX &&
                                |t.pending| + |t.ready| < limits.maxEvents)
            && (r.Success? ==>
                  && r.value.deadline == deadline && r.value.sequence == t.nextSequence
                  && r.value in u.pending && u.pending[r.value] == kind && u.nextSequence == t.nextSequence + 1
                  && (forall id :: id != r.value ==>
                        (id in u.pending <==> id in t.pending) && (id in t.pending ==> u.pending[id] == t.pending[id]))
                  && u.ready == t.ready && u.now == t.now && u.slept == t.slept)
            && (r.Failure? ==> u == t)
  {
  }

  /** Ready events come out first in, first out. */
  lemma PopExactly(t: Timeline)
    ensures var (u, out) := PopReady(t);
            out + u.ready == t.ready && |out| == (if t.ready == [] then 0 else 1) && u == t.(ready := u.ready)
  {
  }

  /** A wake is pending for its task at the end of the duration, and the duration counts as slept. */
  lemma WakeExactly(t: Timeline, limits: Limits, task: nat, duration: nat)
    ensures var (u, r) := ScheduleWake(t, limits, task, duration);
            && (r.Success? ==>
                  && r.value.deadline == t.now + duration <= U64_MAX
                  && r.value in u.pending && u.pending[r.value] == WakeTask(task)
                  && u.slept == if t.slept + duration > U64_MAX then U64_MAX else t.slept + duration)
            && (r.Failure? ==> u == t)
  {
  }

  /** Blocking a task is interrupted exactly when one of its deadlines is pending within the duration: by the
      earliest of them, at its instant. Otherwise the whole duration passes. What ended the block is gone. */
  lemma BlockExactly(t: Timeline, limits: Limits, task: nat, duration: nat)
    requires forall id :: id in t.pending ==> id.sequence < t.nextSequence
    ensures var (u, r) := BlockTask(t, limits, task, duration);
            && (r.Success? <==> ScheduleWake(t, limits, task, duration).1.Success?) && (r.Failure? ==> u == t)
            && (r == Success(Completed) ==>
                  && u.now == t.now + duration
                  && (forall id :: id in t.pending && t.pending[id] == Deadline(task) ==> id.deadline > u.now))
            && (r.Success? && r.value.Interrupted? ==>
                  && var e := r.value.event;
                  && e.kind == Deadline(task) && e.id in t.pending && t.pending[e.id] == Deadline(task)
                  && u.now == e.id.deadline <= t.now + duration && e.id !in u.pending
                  && (forall id :: id in t.pending && t.pending[id] == Deadline(task) ==> AtMost(e.id, id)))
  {
    hide Due;
    var (u, r) := BlockTask(t, limits, task, duration);
    if r == Success(Completed) {
      forall id | id in t.pending && t.pending[id] == Deadline(task)
        ensures id.deadline > u.now
      {
        assert id !in Interrupting(t.pending, task, t.now + duration);
      }
    } else if r.Success? {
      var e := r.value.event;
      forall id | id in t.pending && t.pending[id] == Deadline(task)
        ensures AtMost(e.id, id)
      {
        if id.deadline <= t.now + duration {
          assert id in Interrupting(t.pending, task, t.now + duration);
        }
      }
    }
  }

  // ----- Kinds -----

  /** What was scheduled under each identity, one operation further on. */
  function Noted(kinds: map<EventId, Kind>, h: History, limits: Limits, op: Operation): map<EventId, Kind> {
    var t := h.timeline;
    match op
    case Schedule(deadline, kind) =>
      var r := ScheduleAt(t, limits, deadline, kind).1; if r.Success? then kinds[r.value := kind] else kinds
    case Sleep(task, duration) =>
      var r := ScheduleWake(t, limits, task, duration).1; if r.Success? then kinds[r.value := WakeTask(task)] else kinds
    case BlockOn(task, duration) =>
      var r := ScheduleWake(t, limits, task, duration).1; if r.Success? then kinds[r.value := WakeTask(task)] else kinds
    case _ => kinds
  }

  function AllNoted(kinds: map<EventId, Kind>, h: History, limits: Limits, ops: seq<Operation>): map<EventId, Kind>
    decreases |ops|
  {
    if ops == [] then kinds else AllNoted(Noted(kinds, h, limits, ops[0]), Apply(h, limits, ops[0]), limits, ops[1..])
  }

  predicate As(e: Event, kinds: map<EventId, Kind>) {
    e.id in kinds && kinds[e.id] == e.kind
  }

  /** Every pending, ready and fired event is what was scheduled under its identity. */
  ghost predicate Truthful(h: History, kinds: map<EventId, Kind>) {
    && (forall id :: id in h.timeline.pending ==> As(Event(id, h.timeline.pending[id]), kinds))
    && (forall e :: e in h.timeline.ready ==> As(e, kinds))
    && (forall e :: e in h.fired ==> As(e, kinds))
    && (forall id :: id in kinds ==> id.sequence < h.timeline.nextSequence)
  }

  lemma DueAs(pending: map<EventId, Kind>, target: nat, kinds: map<EventId, Kind>)
    requires forall id :: id in pending ==> As(Event(id, pending[id]), kinds)
    ensures forall e :: e in Due(pending, target) ==> As(e, kinds)
  {
    forall e | e in Due(pending, target)
      ensures As(e, kinds)
    {
      DueExactly(pending, target, e);
    }
  }

  lemma AdvanceTruthful(h: History, target: nat, kinds: map<EventId, Kind>)
    requires Truthful(h, kinds)
    ensures Truthful(Fire(h, AdvanceTo(h.timeline, target)), kinds)
  {
    hide Due;
    DueAs(h.timeline.pending, target, kinds);
  }

  /** Where a block leaves pending and ready events. */
  lemma BlockLeaves(t: Timeline, limits: Limits, task: nat, duration: nat)
    requires BlockTask(t, limits, task, duration).1.Success?
    ensures var (u, r) := BlockTask(t, limits, task, duration);
            && u.pending == Later(t.pending, u.now) && u.nextSequence == t.nextSequence + 1
            && u.ready == t.ready + Due(if r.value.Completed? then t.pending else t.pending - {r.value.event.id}, u.now)
            && ScheduleWake(t, limits, task, duration).1 == Success(EventId(t.now + duration, t.nextSequence))
  {
    hide Due, Least;
  }

  lemma BlockTruthful(h: History, limits: Limits, task: nat, duration: nat, kinds: map<EventId, Kind>)
    requires Truthful(h, kinds)
    ensures Truthful(Blocked(h, limits, task, duration), Noted(kinds, h, limits, BlockOn(task, duration)))
  {
    hide Due, Least, BlockTask, ScheduleWake;
    var t := h.timeline;
    var r := BlockTask(t, limits, task, duration).1;
    if r.Success? {
      BlockLeaves(t, limits, task, duration);
      var now, wake := BlockTask(t, limits, task, duration).0.now, EventId(t.now + duration, t.nextSequence);
      var more := kinds[wake := WakeTask(task)];
      DueAs(t.pending[wake := WakeTask(task)], now, more);
      DueAs(if r.value.Completed? then t.pending else t.pending - {r.value.event.id}, now, more);
    } else {
      BlockFails(t, limits, task, duration);
    }
  }

  lemma BlockFails(t: Timeline, limits: Limits, task: nat, duration: nat)
    requires BlockTask(t, limits, task, duration).1.Failure?
    ensures ScheduleWake(t, limits, task, duration).1.Failure?
  {
    hide Due, Least;
  }

  lemma CancelTruthful(h: History, task: nat, limits: Limits, kinds: map<EventId, Kind>)
    requires Truthful(h, kinds)
    ensures Truthful(Apply(h, limits, CancelAll(task)), kinds)
  {
    hide CancelTask, LeftOver, Belongs, As;
    CancelTaskExactly(h.timeline, task);
    var u := CancelTask(h.timeline, task);
    var places :| LeftOver(h.timeline.ready, u.ready, task, places);
    LeftOverMembers(h.timeline.ready, u.ready, task, places);
  }

  lemma StepTruthful(h: History, limits: Limits, op: Operation, kinds: map<EventId, Kind>)
    requires Truthful(h, kinds)
    ensures Truthful(Apply(h, limits, op), Noted(kinds, h, limits, op))
  {
    hide CancelTask, Blocked, AdvanceTo, Truthful, ScheduleAt, ScheduleWake, Accept, Fire;
    match op
    case Schedule(deadline, kind) => ScheduleTruthful(h, limits, deadline, kind, kinds);
    case Sleep(task, duration) => SleepTruthful(h, limits, task, duration, kinds);
    case CancelOne(id) => CancelOneTruthful(h, limits, id, kinds);
    case Pop => PopTruthful(h, limits, kinds);
    case Advance(target) => AdvanceTruthful(h, target, kinds);
    case AdvanceNext => NextTruthful(h, kinds);
    case CancelAll(task) => CancelTruthful(h, task, limits, kinds);
    case BlockOn(task, duration) => BlockTruthful(h, limits, task, duration, kinds);
  }

  lemma ScheduleTruthful(h: History, limits: Limits, deadline: nat, kind: Kind, kinds: map<EventId, Kind>)
    requires Truthful(h, kinds)
    ensures Truthful(Apply(h, limits, Schedule(deadline, kind)), Noted(kinds, h, limits, Schedule(deadline, kind)))
  {
  }

  lemma SleepTruthful(h: History, limits: Limits, task: nat, duration: nat, kinds: map<EventId, Kind>)
    requires Truthful(h, kinds)
    ensures Truthful(Apply(h, limits, Sleep(task, duration)), Noted(kinds, h, limits, Sleep(task, duration)))
  {
  }

  lemma CancelOneTruthful(h: History, limits: Limits, id: EventId, kinds: map<EventId, Kind>)
    requires Truthful(h, kinds)
    ensures Truthful(Apply(h, limits, CancelOne(id)), kinds)
  {
  }

  lemma PopTruthful(h: History, limits: Limits, kinds: map<EventId, Kind>)
    requires Truthful(h, kinds)
    ensures Truthful(Apply(h, limits, Pop), kinds)
  {
  }

  lemma NextTruthful(h: History, kinds: map<EventId, Kind>)
    requires Truthful(h, kinds)
    ensures Truthful(Fire(h, AdvanceToNext(h.timeline)), kinds)
  {
    hide AdvanceTo;
    if h.timeline.pending != map[] {
      AdvanceTruthful(h, Least(h.timeline.pending).deadline, kinds);
    }
  }

  /** In every run, what fires is what was scheduled: the same kind under the same identity. */
  lemma {:induction false} FiredAsScheduled(h: History, limits: Limits, ops: seq<Operation>, kinds: map<EventId, Kind>)
    requires Truthful(h, kinds)
    ensures Truthful(Run(h, limits, ops), AllNoted(kinds, h, limits, ops))
    decreases |ops|
  {
    hide Apply, Noted, Truthful;
    if ops != [] {
      StepTruthful(h, limits, ops[0], kinds);
      FiredAsScheduled(Apply(h, limits, ops[0]), limits, ops[1..], Noted(kinds, h, limits, ops[0]));
    }
  }
}
