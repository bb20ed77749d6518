// Every run of a timeline, with a record of what was accepted, fired, consumed and cancelled.

module TimelineRuns {
  import opened Basics
  import opened Timelines
  import opened TimelineObject

  datatype Operation =
    | Schedule(deadline: nat, kind: Kind)
    | Sleep(task: nat, duration: nat)
    | CancelOne(id: EventId)
    | CancelAll(task: nat)
    | Advance(target: nat)
    | AdvanceNext
    | Pop
    | BlockOn(task: nat, duration: nat)

  /** A timeline and its past: events in the order they fired, and the identities accepted, consumed
      and cancelled. */
  datatype History = History(timeline: Timeline, fired: seq<Event>, accepted: set<EventId>, consumed: set<EventId>,
                             cancelled: set<EventId>)

  const Beginning: History := History(Origin, [], {}, {}, {})

  function Ids(events: seq<Event>): set<EventId> {
    set e | e in events :: e.id
  }

  function Accept(h: History, r: (Timeline, Outcome<EventId>)): History {
    h.(timeline := r.0, accepted := if r.1.Success? then h.accepted + {r.1.value} else h.accepted)
  }

  function Fire(h: History, r: (Timeline, Outcome<seq<Event>>)): History {
    h.(timeline := r.0, fired := if r.1.Success? then h.fired + r.1.value else h.fired)
  }

  /** Blocking fires events, and consumes the wake or the deadline that ended it. */
  function Blocked(h: History, limits: Limits, task: nat, duration: nat): History {
    var t := h.timeline;
    var (after, r) := BlockTask(t, limits, task, duration);
    var wake := EventId(t.now + duration, t.nextSequence);
    match r
    case Failure(_) => h
    case Success(Completed) =>
      History(after, h.fired + Due(t.pending[wake := WakeTask(task)], after.now), h.accepted + {wake},
              h.consumed + {wake}, h.cancelled)
    case Success(Interrupted(e)) =>
      History(after, h.fired + Due(t.pending[wake := WakeTask(task)], after.now), h.accepted + {wake},
              h.consumed + {e.id}, h.cancelled + {wake})
  }

  function Apply(h: History, limits: Limits, op: Operation): History {
    var t := h.timeline;
    match op
    case Schedule(deadline, kind) => Accept(h, ScheduleAt(t, limits, deadline, kind))
    case Sleep(task, duration) => Accept(h, ScheduleWake(t, limits, task, duration))
    case CancelOne(id) => h.(timeline := Cancel(t, id).0,
                             cancelled := if id in t.pending then h.cancelled + {id} else h.cancelled)
    case CancelAll(task) =>
      var after := CancelTask(t, task);
      h.(timeline := after,
         cancelled := h.cancelled + (t.pending.Keys - after.pending.Keys) + (Ids(t.ready) - Ids(after.ready)))
    case Advance(target) => Fire(h, AdvanceTo(t, target))
    case AdvanceNext => Fire(h, AdvanceToNext(t))
    case Pop => h.(timeline := PopReady(t).0, consumed := h.consumed + Ids(PopReady(t).1))
    case BlockOn(task, duration) => Blocked(h, limits, task, duration)
  }

  function Run(h: History, limits: Limits, ops: seq<Operation>): History
    decreases |ops|
  {
    if ops == [] then h else Run(Apply(h, limits, ops[0]), limits, ops[1..])
  }

  // ----- What every run keeps -----

  /** A set split into four parts. */
  ghost predicate Parts(all: set<EventId>, p: set<EventId>, r: set<EventId>, c: set<EventId>, x: set<EventId>) {
    all == p + r + c + x && p !! r !! c !! x
  }

  /** Every accepted event is in exactly one place. */
  ghost predicate Accounted(h: History) {
    && Parts(h.accepted, h.timeline.pending.Keys, Ids(h.timeline.ready), h.consumed, h.cancelled)
    && (forall id :: id in h.accepted ==> id.sequence < h.timeline.nextSequence)
  }

  /** Every event of a list is due and sorts before everything pending; the list is in firing order. */
  ghost predicate Past(events: seq<Event>, t: Timeline) {
    && InOrder(events)
    && (forall e :: e in events ==> e.id.deadline <= t.now && e.id.sequence < t.nextSequence)
    && (forall e, id :: e in events && id in t.pending ==> Less(e.id, id))
  }

  /** The whole firing order is increasing, nothing fired before its deadline, and what is pending
      sorts after everything that fired and is not overdue. */
  ghost predicate Punctual(h: History) {
    && Past(h.fired, h.timeline) && Past(h.timeline.ready, h.timeline)
    && (forall id :: id in h.timeline.pending ==> id.deadline >= h.timeline.now)
  }

  ghost predicate Bounded(h: History, limits: Limits) {
    |h.timeline.pending| + |h.timeline.ready| <= limits.maxEvents
  }

  ghost predicate Kept(h: History, limits: Limits) {
    Accounted(h) && Punctual(h) && Bounded(h, limits)
  }

  // ----- Queues -----

  lemma {:induction false} WithoutExactly(events: seq<Event>, id: EventId)
    ensures forall e :: e in Without(events, id) <==> e in events && e.id != id
    ensures |Without(events, id)| <= |events| && (InOrder(events) ==> InOrder(Without(events, id)))
  {
    if events != [] {
      WithoutExactly(events[1..], id);
      assert events == [events[0]] + events[1..];
      if InOrder(events) {
        InOrderTail(events);
        InOrderCons(events[0], Without(events[1..], id));
      }
    }
  }

  lemma InOrderTail(events: seq<Event>)
    requires InOrder(events) && events != []
    ensures InOrder(events[1..]) && forall e :: e in events[1..] ==> Less(events[0].id, e.id)
  {
  }

  lemma InOrderCons(e: Event, events: seq<Event>)
    requires InOrder(events) && forall other :: other in events ==> Less(e.id, other.id)
    ensures InOrder([e] + events)
  {
  }

  lemma InOrderJoin(x: seq<Event>, y: seq<Event>)
    requires InOrder(x) && InOrder(y) && forall i, j :: 0 <= i < |x| && 0 <= j < |y| ==> Less(x[i].id, y[j].id)
    ensures InOrder(x + y)
  {
  }

  lemma {:induction false} DisownedExactly(events: seq<Event>, task: nat)
    ensures forall e :: e in Disowned(events, task) <==> e in events && !Owned(e.kind, task)
    ensures |Disowned(events, task)| <= |events| && (InOrder(events) ==> InOrder(Disowned(events, task)))
  {
    if events != [] {
      DisownedExactly(events[1..], task);
      assert events == [events[0]] + events[1..];
      if InOrder(events) {
        InOrderTail(events);
        InOrderCons(events[0], Disowned(events[1..], task));
      }
    }
  }

  lemma {:induction false} DueCounts(pending: map<EventId, Kind>, target: nat)
    ensures |Due(pending, target)| + |Later(pending, target)| == |pending|
    decreases |pending|
  {
    if pending == map[] {
      assert Later(pending, target) == map[];
    } else if Least(pending).deadline > target {
      assert Later(pending, target) == pending;
    } else {
      var id := Least(pending);
      MapRemoved(pending, id);
      DueCounts(pending - {id}, target);
      assert Later(pending - {id}, target) == Later(pending, target);
    }
  }

  lemma DueIds(pending: map<EventId, Kind>, target: nat)
    ensures Ids(Due(pending, target)) == pending.Keys - Later(pending, target).Keys
  {
    hide Due;
    forall e
      ensures e in Due(pending, target) <==> e.id in pending && pending[e.id] == e.kind && e.id.deadline <= target
    {
      DueExactly(pending, target, e);
    }
    forall id | id in pending && id.deadline <= target
      ensures id in Ids(Due(pending, target))
    {
      assert Event(id, pending[id]) in Due(pending, target);
    }
  }

  // ----- Accepting -----

  lemma AcceptKept(h: History, limits: Limits, deadline: nat, kind: Kind)
    requires Kept(h, limits) && ScheduleAt(h.timeline, limits, deadline, kind).1.Success?
    ensures Kept(Accept(h, ScheduleAt(h.timeline, limits, deadline, kind)), limits)
  {
    hide Accounted, Punctual;
    var t := h.timeline;
    var id := EventId(deadline, t.nextSequence);
    MapUpdated(t.pending, id, kind);
    NewAccounted(h, id, kind);
    NewPunctual(h, id, kind);
  }

  /** A history with one more event pending. */
  function Added(h: History, id: EventId, kind: Kind): History {
    h.(timeline := h.timeline.(nextSequence := h.timeline.nextSequence + 1, pending := h.timeline.pending[id := kind]),
       accepted := h.accepted + {id})
  }

  lemma NewAccounted(h: History, id: EventId, kind: Kind)
    requires Accounted(h) && id.sequence == h.timeline.nextSequence
    ensures Accounted(Added(h, id, kind))
  {
    hide Parts, Ids;
    var t := h.timeline;
    assert t.pending[id := kind].Keys == t.pending.Keys + {id};
    NewPart(h.accepted, t.pending.Keys, Ids(t.ready), h.consumed, h.cancelled, id);
  }

  lemma NewPunctual(h: History, id: EventId, kind: Kind)
    requires Punctual(h) && id.sequence == h.timeline.nextSequence && id.deadline >= h.timeline.now
    ensures Punctual(Added(h, id, kind))
  {
    hide Past;
    NewPast(h.fired, h.timeline, id, kind);
    NewPast(h.timeline.ready, h.timeline, id, kind);
  }

  lemma NewPart(all: set<EventId>, p: set<EventId>, r: set<EventId>, c: set<EventId>, x: set<EventId>, id: EventId)
    requires Parts(all, p, r, c, x) && id !in all
    ensures Parts(all + {id}, p + {id}, r, c, x)
  {
  }

  lemma NewPast(events: seq<Event>, t: Timeline, id: EventId, kind: Kind)
    requires Past(events, t) && id.deadline >= t.now && id.sequence == t.nextSequence
    ensures Past(events, t.(nextSequence := t.nextSequence + 1, pending := t.pending[id := kind]))
  {
  }

  lemma SleepMattersNot(h: History, limits: Limits, slept: nat)
    requires Kept(h, limits)
    ensures Kept(h.(timeline := h.timeline.(slept := slept)), limits)
  {
    hide Parts, Ids, InOrder;
  }

  // ----- Firing -----

  lemma FireAccounted(h: History, target: nat)
    requires Accounted(h)
    ensures Accounted(h.(timeline := Advanced(h.timeline, target), fired := h.fired + Due(h.timeline.pending, target)))
  {
    hide Due;
    var t := h.timeline;
    DueIds(t.pending, target);
    assert Later(t.pending, target).Keys <= t.pending.Keys;
    assert Ids(t.ready + Due(t.pending, target)) == Ids(t.ready) + Ids(Due(t.pending, target));
  }

  lemma FirePast(events: seq<Event>, t: Timeline, target: nat)
    requires Past(events, t) && t.now <= target && forall id :: id in t.pending ==> id.sequence < t.nextSequence
    ensures Past(events + Due(t.pending, target), Advanced(t, target))
  {
    hide Due;
    var due := Due(t.pending, target);
    DueInOrder(t.pending, target);
    forall e
      ensures e in due <==> e.id in t.pending && t.pending[e.id] == e.kind && e.id.deadline <= target
    {
      DueExactly(t.pending, target, e);
    }
    forall i, j | 0 <= i < |events| && 0 <= j < |due|
      ensures Less(events[i].id, due[j].id)
    {
      assert events[i] in events && due[j] in due;
    }
    InOrderJoin(events, due);
  }

  lemma FireKept(h: History, limits: Limits, target: nat)
    requires Kept(h, limits) && h.timeline.now <= target
    ensures Kept(h.(timeline := Advanced(h.timeline, target), fired := h.fired + Due(h.timeline.pending, target)),
                 limits)
  {
    hide Due, Past, Accounted;
    PendingSequences(h);
    FireAccounted(h, target);
    FirePast(h.fired, h.timeline, target);
    FirePast(h.timeline.ready, h.timeline, target);
    DueCounts(h.timeline.pending, target);
  }

  lemma PendingSequences(h: History)
    requires Accounted(h)
    ensures forall id :: id in h.timeline.pending ==> id.sequence < h.timeline.nextSequence
  {
    assert forall id :: id in h.timeline.pending ==> id in h.accepted;
  }

  // ----- Taking out -----

  /** Fewer events pending or ready, in the same order, are still punctual. */
  lemma FewerPunctual(h: History, u: History)
    requires Punctual(h) && u.fired == h.fired && u.timeline.now == h.timeline.now &&
             u.timeline.nextSequence == h.timeline.nextSequence
    requires u.timeline.pending.Keys <= h.timeline.pending.Keys && InOrder(u.timeline.ready) &&
             forall e :: e in u.timeline.ready ==> e in h.timeline.ready
    ensures Punctual(u)
  {
    hide InOrder;
  }

  /** An event out of the ready queue, consumed or cancelled. */
  function TakenOut(h: History, id: EventId, use: bool): History {
    var h1 := h.(timeline := h.timeline.(ready := Without(h.timeline.ready, id)));
    if use then h1.(consumed := h.consumed + {id}) else h1.(cancelled := h.cancelled + {id})
  }

  lemma MovedPart(all: set<EventId>, p: set<EventId>, r: set<EventId>, c: set<EventId>, x: set<EventId>,
                  some: set<EventId>)
    requires Parts(all, p, r, c, x)
    ensures some <= r ==> Parts(all, p, r - some, c + some, x) && Parts(all, p, r - some, c, x + some)
    ensures some <= p ==> Parts(all, p - some, r, c, x + some)
  {
  }

  lemma TakenOutKept(h: History, limits: Limits, id: EventId, use: bool)
    requires Kept(h, limits) && id in Ids(h.timeline.ready)
    ensures Kept(TakenOut(h, id, use), limits)
  {
    hide Without, Accounted, Punctual, Ids;
    WithoutExactly(h.timeline.ready, id);
    TakenOutAccounted(h, id, use);
    InOrderReady(h);
    FewerPunctual(h, TakenOut(h, id, use));
  }

  lemma TakenOutAccounted(h: History, id: EventId, use: bool)
    requires Accounted(h) && id in Ids(h.timeline.ready)
    ensures Accounted(TakenOut(h, id, use))
  {
    hide Without, Parts, Ids;
    var t := h.timeline;
    IdsWithout(t.ready, id);
    MovedPart(h.accepted, t.pending.Keys, Ids(t.ready), h.consumed, h.cancelled, {id});
  }

  lemma IdsWithout(events: seq<Event>, id: EventId)
    ensures Ids(Without(events, id)) == Ids(events) - {id}
  {
    hide Without;
    WithoutExactly(events, id);
  }

  lemma InOrderReady(h: History)
    requires Punctual(h)
    ensures InOrder(h.timeline.ready)
  {
  }

  lemma CancelKept(h: History, limits: Limits, id: EventId)
    requires Kept(h, limits)
    ensures Kept(Apply(h, limits, CancelOne(id)), limits)
  {
    hide Punctual, Parts, Ids;
    var t := h.timeline;
    var after := t.pending - {id};
    if id in t.pending {
      assert after.Keys == t.pending.Keys - {id};
      FewerKeys(after, t.pending);
      MovedPart(h.accepted, t.pending.Keys, Ids(t.ready), h.consumed, h.cancelled, {id});
      InOrderReady(h);
      FewerPunctual(h, Apply(h, limits, CancelOne(id)));
    } else {
      assert after == t.pending;
    }
  }

  lemma PopKept(h: History, limits: Limits)
    requires Kept(h, limits)
    ensures Kept(Apply(h, limits, Pop), limits)
  {
    hide Accounted, Punctual, Ids;
    if h.timeline.ready != [] {
      InOrderReady(h);
      PopIds(h.timeline.ready);
      PopAccounted(h, limits);
      FewerPunctual(h, Apply(h, limits, Pop));
    } else {
      NoIds();
      assert h.consumed + {} == h.consumed;
    }
  }

  lemma NoIds()
    ensures Ids([]) == {}
  {
  }

  lemma PopAccounted(h: History, limits: Limits)
    requires Accounted(h) && h.timeline.ready != [] && InOrder(h.timeline.ready)
    ensures Accounted(Apply(h, limits, Pop))
  {
    hide Parts, Ids, InOrder;
    var t := h.timeline;
    PopIds(t.ready);
    MovedPart(h.accepted, t.pending.Keys, Ids(t.ready), h.consumed, h.cancelled, {t.ready[0].id});
  }

  lemma PopIds(ready: seq<Event>)
    requires InOrder(ready) && ready != []
    ensures Ids(ready[1..]) == Ids(ready) - {ready[0].id} && Ids([ready[0]]) == {ready[0].id} &&
            ready[0].id in Ids(ready) && InOrder(ready[1..])
  {
    InOrderTail(ready);
    assert ready == [ready[0]] + ready[1..];
    assert ready[0] in ready;
  }

  lemma CancelTaskKept(h: History, limits: Limits, task: nat)
    requires Kept(h, limits)
    ensures Kept(Apply(h, limits, CancelAll(task)), limits)
  {
    hide Disowned, Accounted, Punctual, Ids;
    var t, after := h.timeline, CancelTask(h.timeline, task);
    DisownedExactly(t.ready, task);
    FewerKeys(after.pending, t.pending);
    CancelTaskAccounted(h, limits, task);
    InOrderReady(h);
    FewerPunctual(h, Apply(h, limits, CancelAll(task)));
  }

  lemma CancelTaskAccounted(h: History, limits: Limits, task: nat)
    requires Accounted(h)
    ensures Accounted(Apply(h, limits, CancelAll(task)))
  {
    hide Disowned, Parts, Ids;
    var t, after := h.timeline, CancelTask(h.timeline, task);
    var gone, out := t.pending.Keys - after.pending.Keys, Ids(t.ready) - Ids(after.ready);
    MovedPart(h.accepted, t.pending.Keys, Ids(t.ready), h.consumed, h.cancelled, gone);
    assert t.pending.Keys - gone == after.pending.Keys;
    MovedPart(h.accepted, after.pending.Keys, Ids(t.ready), h.consumed, h.cancelled + gone, out);
    IdsDisowned(t.ready, task);
    assert Ids(t.ready) - out == Ids(after.ready);
  }

  lemma IdsDisowned(events: seq<Event>, task: nat)
    ensures Ids(Disowned(events, task)) <= Ids(events)
  {
    hide Disowned;
    DisownedExactly(events, task);
  }

  // ----- Blocking -----

  lemma KeptProper(h: History, limits: Limits)
    requires Kept(h, limits)
    ensures Proper(h.timeline)
  {
    hide Past;
    PendingSequences(h);
    ReadyKnown(h);
  }

  lemma ReadyKnown(h: History)
    requires Accounted(h)
    ensures forall i :: 0 <= i < |h.timeline.ready| ==>
              h.timeline.ready[i].id.sequence < h.timeline.nextSequence && h.timeline.ready[i].id !in h.timeline.pending
  {
    forall i | 0 <= i < |h.timeline.ready|
      ensures h.timeline.ready[i].id in h.accepted && h.timeline.ready[i].id !in h.timeline.pending
    {
      assert h.timeline.ready[i].id in Ids(h.timeline.ready);
    }
  }

  /** The wake accepted and everything due by an instant fired. */
  function Waited(h: History, task: nat, duration: nat, target: nat): History {
    var t := h.timeline;
    var wake := EventId(t.now + duration, t.nextSequence);
    var h0 := Added(h, wake, WakeTask(task));
    var h1 := h0.(timeline := h0.timeline.(slept := Saturated(t.slept + duration)));
    h1.(timeline := Advanced(h1.timeline, target), fired := h.fired + Due(h1.timeline.pending, target))
  }

  lemma WaitedKept(h: History, limits: Limits, task: nat, duration: nat, target: nat)
    requires Kept(h, limits) && ScheduleWake(h.timeline, limits, task, duration).1.Success? && h.timeline.now <= target
    ensures Kept(Waited(h, task, duration, target), limits)
  {
    hide Kept, Advanced, Due;
    var wake := EventId(h.timeline.now + duration, h.timeline.nextSequence);
    AcceptKept(h, limits, wake.deadline, WakeTask(task));
    var h1 := Added(h, wake, WakeTask(task));
    SleepMattersNot(h1, limits, Saturated(h.timeline.slept + duration));
    FireKept(h1.(timeline := h1.timeline.(slept := Saturated(h.timeline.slept + duration))), limits, target);
  }

  lemma CompletedKept(h: History, limits: Limits, task: nat, duration: nat)
    requires Kept(h, limits) && BlockTask(h.timeline, limits, task, duration).1 == Success(Completed)
    ensures Kept(Blocked(h, limits, task, duration), limits)
  {
    hide Kept, Due, Later, Without, Proper, Interrupting, Ids, Least;
    var t := h.timeline;
    var wake := EventId(t.now + duration, t.nextSequence);
    KeptProper(h, limits);
    WakeScheduled(t, limits, task, duration);
    var t1 := ScheduleWake(t, limits, task, duration).0;
    WaitedKept(h, limits, task, duration, wake.deadline);
    var v := Waited(h, task, duration, wake.deadline);
    WakeTakenOut(t, t1, wake, task, duration, wake.deadline);
    FiredIsReady(v.timeline, t1, Event(wake, WakeTask(task)), wake.deadline);
    TakenOutKept(v, limits, wake, true);
  }

  lemma FiredIsReady(v: Timeline, t1: Timeline, e: Event, target: nat)
    requires v.ready == t1.ready + Due(t1.pending, target) && e.id in t1.pending && t1.pending[e.id] == e.kind &&
             e.id.deadline <= target
    ensures e.id in Ids(v.ready)
  {
    hide Due;
    DueExactly(t1.pending, target, e);
    assert e in v.ready;
  }

  /** An event cancelled wherever it is. */
  function Gone(h: History, id: EventId): History {
    h.(timeline := h.timeline.(pending := h.timeline.pending - {id}, ready := Without(h.timeline.ready, id)),
       cancelled := h.cancelled + {id})
  }

  lemma GoneKept(h: History, limits: Limits, id: EventId)
    requires Kept(h, limits) && (id in h.timeline.pending || id in Ids(h.timeline.ready))
    ensures Kept(Gone(h, id), limits)
  {
    hide Kept, Without, Ids;
    if id in h.timeline.pending {
      CancelKept(h, limits, id);
      PendingNotReady(h, limits, id);
    } else {
      TakenOutKept(h, limits, id, false);
      assert h.timeline.pending - {id} == h.timeline.pending;
    }
  }

  lemma PendingNotReady(h: History, limits: Limits, id: EventId)
    requires Kept(h, limits) && id in h.timeline.pending
    ensures Without(h.timeline.ready, id) == h.timeline.ready
  {
    hide Without, Punctual;
    ReadyKnown(h);
    WithoutNothing(h.timeline.ready, id);
  }

  lemma WakeIsPlaced(t1: Timeline, wake: EventId, task: nat, target: nat)
    requires wake in t1.pending && t1.pending[wake] == WakeTask(task)
    ensures wake in Advanced(t1, target).pending || wake in Ids(Advanced(t1, target).ready)
  {
    hide Due, Ids;
    if wake.deadline <= target {
      FiredIsReady(Advanced(t1, target), t1, Event(wake, WakeTask(task)), target);
    }
  }

  lemma InterruptedKept(h: History, limits: Limits, task: nat, duration: nat)
    requires Kept(h, limits) && BlockTask(h.timeline, limits, task, duration).1.Success? &&
             BlockTask(h.timeline, limits, task, duration).1.value.Interrupted?
    ensures Kept(Blocked(h, limits, task, duration), limits)
  {
    hide Kept, Due, Later, Without, Proper, Ids, Least;
    var t := h.timeline;
    var wake := EventId(t.now + duration, t.nextSequence);
    var e := BlockTask(t, limits, task, duration).1.value.event;
    KeptProper(h, limits);
    WakeScheduled(t, limits, task, duration);
    var t1 := ScheduleWake(t, limits, task, duration).0;
    WaitedKept(h, limits, task, duration, e.id.deadline);
    var v := Waited(h, task, duration, e.id.deadline);
    assert v.timeline == Advanced(t1, e.id.deadline);
    WakeIsPlaced(t1, wake, task, e.id.deadline);
    GoneKept(v, limits, wake);
    InterruptReached(t, t1, wake, task, duration, e);
    FiredIsReady(Gone(v, wake).timeline, t, e, e.id.deadline);
    TakenOutKept(Gone(v, wake), limits, e.id, true);
  }

  lemma InterruptReached(t: Timeline, t1: Timeline, wake: EventId, task: nat, duration: nat, e: Event)
    requires WakeAdded(t, t1, wake, task, duration) && e.id in t.pending
    ensures var v := Advanced(t1, e.id.deadline);
            && Without(v.ready, wake) == t.ready + Due(t.pending, e.id.deadline)
            && v.pending - {wake} == Later(t.pending, e.id.deadline)
            && Without(t.ready + Due(t.pending, e.id.deadline), e.id) ==
               t.ready + Due(t.pending - {e.id}, e.id.deadline)
  {
    hide Due, Later;
    WakeTakenOut(t, t1, wake, task, duration, e.id.deadline);
    WithoutBoth(t.ready, Due(t.pending, e.id.deadline), e.id);
    WithoutNothing(t.ready, e.id);
    DueWithout(t.pending, e.id.deadline, e.id);
  }

  // ----- Every run -----

  lemma SleepKept(h: History, limits: Limits, task: nat, duration: nat)
    requires Kept(h, limits)
    ensures Kept(Apply(h, limits, Sleep(task, duration)), limits)
  {
    hide Kept, ScheduleAt;
    var r := ScheduleAfter(h.timeline, limits, duration, WakeTask(task));
    RefusedUnchanged(h.timeline, limits, h.timeline.now + duration, WakeTask(task));
    if r.1.Success? {
      AcceptKept(h, limits, h.timeline.now + duration, WakeTask(task));
      SleepMattersNot(Accept(h, r), limits, Saturated(r.0.slept + duration));
    }
  }

  lemma RefusedUnchanged(t: Timeline, limits: Limits, deadline: nat, kind: Kind)
    ensures ScheduleAt(t, limits, deadline, kind).1.Failure? ==> ScheduleAt(t, limits, deadline, kind).0 == t
  {
  }

  lemma AdvanceKept(h: History, limits: Limits, target: nat)
    requires Kept(h, limits)
    ensures Kept(Fire(h, AdvanceTo(h.timeline, target)), limits)
  {
    hide Kept, Due, Advanced;
    if target >= h.timeline.now {
      FireKept(h, limits, target);
    }
  }

  lemma AdvanceNextKept(h: History, limits: Limits)
    requires Kept(h, limits)
    ensures Kept(Apply(h, limits, AdvanceNext), limits)
  {
    hide Kept, AdvanceTo, Least;
    if h.timeline.pending == map[] {
      assert h.fired + [] == h.fired;
    } else {
      AdvanceKept(h, limits, Least(h.timeline.pending).deadline);
    }
  }

  lemma ApplyKept(h: History, limits: Limits, op: Operation)
    requires Kept(h, limits)
    ensures Kept(Apply(h, limits, op), limits)
  {
    hide Kept, ScheduleAt, AdvanceTo, BlockTask, Blocked;
    match op
    case Schedule(deadline, kind) =>
      RefusedUnchanged(h.timeline, limits, deadline, kind);
      if ScheduleAt(h.timeline, limits, deadline, kind).1.Success? {
        AcceptKept(h, limits, deadline, kind);
      }
    case Sleep(task, duration) => SleepKept(h, limits, task, duration);
    case CancelOne(id) => CancelKept(h, limits, id);
    case CancelAll(task) => CancelTaskKept(h, limits, task);
    case Advance(target) => AdvanceKept(h, limits, target);
    case AdvanceNext => AdvanceNextKept(h, limits);
    case Pop => PopKept(h, limits);
    case BlockOn(task, duration) =>
      FailedBlock(h, limits, task, duration);
      var r := BlockTask(h.timeline, limits, task, duration).1;
      if r == Success(Completed) {
        CompletedKept(h, limits, task, duration);
      } else if r.Success? {
        InterruptedKept(h, limits, task, duration);
      }
  }

  lemma FailedBlock(h: History, limits: Limits, task: nat, duration: nat)
    ensures BlockTask(h.timeline, limits, task, duration).1.Failure? ==> Blocked(h, limits, task, duration) == h
  {
  }

  lemma BeginningKept(limits: Limits)
    ensures Kept(Beginning, limits)
  {
  }

  /** The same for every run of a new timeline. */
  lemma EveryRunKept(limits: Limits, ops: seq<Operation>)
    ensures Kept(Run(Beginning, limits, ops), limits)
  {
    hide Kept;
    BeginningKept(limits);
    RunKept(Beginning, limits, ops);
  }

  /** Over every run from a new timeline: the whole firing order is strictly increasing in deadline and
      sequence, nothing fires early, every accepted event is in exactly one of pending, ready, consumed
      and cancelled, and pending plus ready never exceeds the limit. */
  lemma {:induction false} RunKept(h: History, limits: Limits, ops: seq<Operation>)
    requires Kept(h, limits)
    ensures Kept(Run(h, limits, ops), limits)
    decreases |ops|
  {
    hide Kept, Apply;
    if ops != [] {
      ApplyKept(h, limits, ops[0]);
      RunKept(Apply(h, limits, ops[0]), limits, ops[1..]);
    }
  }
}
