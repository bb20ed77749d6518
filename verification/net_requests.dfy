// The host-request protocol: a guest process asks, the host drains and answers, the process polls
// for the answer. Over every run a request is delivered, completed and received at most once each,
// in that order, and only by the process that asked.

module HostRequests {
  import opened Basics

  const MAX_SLOTS: nat := 16
  const MAX_LOG: nat := 4096

  type Pid = nat
  type Id = nat

  /** A guest request: whether it is a POST, whether it passes the size, format and header checks, and
      everything that tells it apart from others. */
  datatype Request = Request(post: bool, acceptable: bool, content: string)

  datatype Response = Response(status: nat, body: string)

  datatype Slot = Slot(id: Id, request: Request, delivered: bool, response: Option<Response>, logIndex: Option<nat>)

  datatype LogEntry = LogEntry(content: string, matched: bool, status: Option<nat>)

  datatype Net = Net(slots: map<Pid, Slot>, nextId: nat, log: seq<LogEntry>, dropped: nat)

  datatype Reply = Ready(response: Response) | Blocked(id: Id) | Refused

  const MethodNotAllowed: Response := Response(405, "")

  /** The log with one more request, or one more dropped. */
  function Logged(n: Net, request: Request, status: Option<nat>): Net {
    if |n.log| >= MAX_LOG then n.(dropped := if n.dropped >= U64_MAX then U64_MAX else n.dropped + 1)
    else n.(log := n.log + [LogEntry(request.content, true, status)])
  }

  function Ask(n: Net, pid: Pid, request: Request): (Net, Reply) {
    if !request.post then (Logged(n, request, Some(405)), Ready(MethodNotAllowed))
    else if !request.acceptable then (n, Refused)
    else if pid in n.slots then
      var slot := n.slots[pid];
      if slot.request != request then (n, Refused)
      else (match slot.response
            case Some(response) => (n.(slots := n.slots - {pid}), Ready(response))
            case None => (n, Blocked(slot.id)))
    else if |n.slots| >= MAX_SLOTS || n.nextId >= U64_MAX then (n, Refused)
    else
      var index := if |n.log| < MAX_LOG then Some(|n.log|) else None;
      var slot := Slot(n.nextId, request, false, None, index);
      (Logged(n, request, None).(slots := n.slots[pid := slot], nextId := n.nextId + 1), Blocked(n.nextId))
  }

  /** The first process in order. */
  function FirstPid(slots: map<Pid, Slot>): (pid: Pid)
    requires slots != map[]
    ensures pid in slots && |slots - {pid}| < |slots|
  {
    MapRemoved(slots, LeastKey(slots));
    LeastKey(slots)
  }

  /** The requests not yet delivered, in the order of their processes. */
  function Undelivered(slots: map<Pid, Slot>): seq<Id>
    decreases |slots|
  {
    if slots == map[] then []
    else
      var pid := FirstPid(slots);
      (if slots[pid].delivered then [] else [slots[pid].id]) + Undelivered(slots - {pid})
  }

  /** The same requests with their contents. */
  function Outgoing(slots: map<Pid, Slot>): seq<(Id, Request)>
    decreases |slots|
  {
    if slots == map[] then []
    else
      var pid := FirstPid(slots);
      (if slots[pid].delivered then [] else [(slots[pid].id, slots[pid].request)]) + Outgoing(slots - {pid})
  }

  /** Drain the requests not yet delivered. */
  function Drain(n: Net): (Net, seq<(Id, Request)>) {
    (n.(slots := map pid | pid in n.slots :: n.slots[pid].(delivered := true)), Outgoing(n.slots))
  }

  /** The first process whose open request has an identity. */
  function Asker(slots: map<Pid, Slot>, id: Id): (r: Option<Pid>)
    ensures if r.Some? then r.value in slots && slots[r.value].id == id
            else forall pid :: pid in slots ==> slots[pid].id != id
    decreases |slots|
  {
    if slots == map[] then None
    else
      var pid := FirstPid(slots);
      if slots[pid].id == id then Some(pid)
      else
        var rest := Asker(slots - {pid}, id);
        assert rest.None? ==> forall other :: other in slots ==> other == pid || other in slots - {pid};
        rest
  }

  predicate Asked(n: Net, pid: Pid, id: Id) {
    pid in n.slots && n.slots[pid].id == id
  }

  /** The net with a process's request answered. */
  function Answered(n: Net, pid: Pid, response: Response): Net
    requires pid in n.slots
  {
    var slot := n.slots[pid];
    var log := if slot.logIndex.Some? && slot.logIndex.value < |n.log|
               then n.log[slot.logIndex.value := n.log[slot.logIndex.value].(status := Some(response.status))]
               else n.log;
    n.(slots := n.slots[pid := slot.(response := Some(response))], log := log)
  }

  /** What completing a request does, given the process that asked it. */
  function CompleteAt(n: Net, pid: Pid, response: Response): (Net, Option<Pid>)
    requires pid in n.slots
  {
    if !n.slots[pid].delivered || n.slots[pid].response.Some? then (n, None)
    else (Answered(n, pid, response), Some(pid))
  }

  function Complete(n: Net, id: Id, response: Response, valid: bool): (Net, Option<Pid>) {
    if !valid then (n, None)
    else
      match Asker(n.slots, id)
      case None => (n, None)
      case Some(pid) => CompleteAt(n, pid, response)
  }

  function Keep(n: Net, live: set<Pid>): Net {
    n.(slots := map pid | pid in n.slots && pid in live :: n.slots[pid])
  }

  function DropAll(n: Net): Net {
    n.(slots := map[])
  }

  // ----- Runs -----

  /** A net and its past: who was issued which identity, and how often each was delivered, completed
      and received. */
  datatype Trace = Trace(net: Net, issued: map<Id, Pid>, delivered: multiset<Id>, completed: multiset<Id>,
                         received: multiset<(Pid, Id)>)

  datatype Move =
    | Asks(pid: Pid, request: Request)
    | Drains
    | Completes(id: Id, response: Response, valid: bool)
    | Keeps(live: set<Pid>)
    | Discards

  const Beginning: Trace := Trace(Net(map[], 0, [], 0), map[], multiset{}, multiset{}, multiset{})

  function Make(t: Trace, move: Move): Trace {
    var n := t.net;
    match move
    case Asks(pid, request) =>
      var (after, reply) := Ask(n, pid, request);
      if pid in n.slots && pid !in after.slots then t.(net := after,
                                                       received := t.received + multiset{(pid, n.slots[pid].id)})
      else if pid !in n.slots && pid in after.slots then t.(net := after, issued := t.issued[n.nextId := pid])
      else t.(net := after)
    case Drains => t.(net := Drain(n).0, delivered := t.delivered + multiset(Undelivered(n.slots)))
    case Completes(id, response, valid) =>
      var (after, pid) := Complete(n, id, response, valid);
      t.(net := after, completed := if pid.Some? then t.completed + multiset{id} else t.completed)
    case Keeps(live) => t.(net := Keep(n, live))
    case Discards => t.(net := DropAll(n))
  }

  function MakeAll(t: Trace, moves: seq<Move>): Trace
    decreases |moves|
  {
    if moves == [] then t else MakeAll(Make(t, moves[0]), moves[1..])
  }

  // ----- What every run keeps -----

  ghost predicate Once<T(!new)>(m: multiset<T>) {
    forall x :: m[x] <= 1
  }

  /** A slot's flags say what has happened to its request. */
  ghost predicate SlotTrue(t: Trace, pid: Pid)
    requires pid in t.net.slots
  {
    var slot := t.net.slots[pid];
    && slot.id in t.issued && t.issued[slot.id] == pid
    && (slot.delivered <==> slot.id in t.delivered) && (slot.response.Some? <==> slot.id in t.completed)
    && (pid, slot.id) !in t.received && (slot.logIndex.Some? ==> slot.logIndex.value < |t.net.log|)
  }

  /** Identities are used once; delivery, completion and receipt each happen at most once and in that
      order, receipt only by the process that asked. */
  ghost predicate Recorded(t: Trace) {
    && (forall id :: id in t.issued ==> id < t.net.nextId)
    && Once(t.delivered) && Once(t.completed) && Once(t.received)
    && (forall id :: id in t.delivered ==> id in t.issued)
    && (forall id :: id in t.completed ==> id in t.delivered)
    && (forall pid, id :: (pid, id) in t.received ==> id in t.completed && t.issued[id] == pid)
  }

  /** The record is in order, every slot agrees with it, and slots and log are within their limits. */
  ghost predicate Orderly(t: Trace) {
    && Recorded(t) && |t.net.slots| <= MAX_SLOTS && |t.net.log| <= MAX_LOG
    && (forall pid :: pid in t.net.slots ==> SlotTrue(t, pid))
  }

  /** Fewer slots and a longer log. */
  lemma FewerOrderly(t: Trace, after: Net)
    requires Orderly(t) && after.slots.Keys <= t.net.slots.Keys &&
             (forall pid :: pid in after.slots ==> after.slots[pid] == t.net.slots[pid])
    requires after.nextId == t.net.nextId && |t.net.log| <= |after.log| <= MAX_LOG
    ensures Orderly(t.(net := after))
  {
    hide Once;
    FewerKeys(after.slots, t.net.slots);
    forall pid | pid in after.slots
      ensures SlotTrue(t.(net := after), pid)
    {
      assert SlotTrue(t, pid);
    }
  }

  lemma OnceMore<T(!new)>(m: multiset<T>, x: T)
    requires Once(m) && x !in m
    ensures Once(m + multiset{x})
  {
  }

  lemma IssueOrderly(t: Trace, pid: Pid, slot: Slot, after: Net)
    requires Orderly(t) && pid !in t.net.slots && |t.net.slots| < MAX_SLOTS
    requires slot.id == t.net.nextId && !slot.delivered && slot.response.None? &&
             (slot.logIndex.Some? ==> slot.logIndex.value < |after.log|)
    requires after.slots == t.net.slots[pid := slot] && after.nextId == t.net.nextId + 1
    requires |t.net.log| <= |after.log| <= MAX_LOG
    ensures Orderly(t.(net := after, issued := t.issued[slot.id := pid]))
  {
    hide Recorded;
    var v := t.(net := after, issued := t.issued[slot.id := pid]);
    MapUpdated(t.net.slots, pid, slot);
    IssueRecorded(t, after, slot.id, pid);
    forall other | other in after.slots
      ensures SlotTrue(v, other)
    {
      if other != pid {
        assert SlotTrue(t, other);
        KnownId(t, other);
      }
    }
  }

  lemma KnownId(t: Trace, pid: Pid)
    requires Recorded(t) && pid in t.net.slots && SlotTrue(t, pid)
    ensures t.net.slots[pid].id < t.net.nextId
  {
    hide Once;
  }

  /** A new identity is in none of the records. */
  lemma IssueRecorded(t: Trace, after: Net, id: Id, pid: Pid)
    requires Recorded(t) && id == t.net.nextId && after.nextId == id + 1
    ensures Recorded(t.(net := after, issued := t.issued[id := pid]))
    ensures id !in t.delivered && id !in t.completed && (pid, id) !in t.received
  {
    hide Once;
  }

  lemma ReceiveOrderly(t: Trace, pid: Pid)
    requires Orderly(t) && pid in t.net.slots && t.net.slots[pid].response.Some?
    ensures Orderly(t.(net := t.net.(slots := t.net.slots - {pid}),
                       received := t.received + multiset{(pid, t.net.slots[pid].id)}))
  {
    hide Once;
    var id := t.net.slots[pid].id;
    assert SlotTrue(t, pid);
    OnceMore(t.received, (pid, id));
    var after := t.net.(slots := t.net.slots - {pid});
    FewerOrderly(t, after);
    var v := t.(net := after, received := t.received + multiset{(pid, id)});
    forall other | other in after.slots
      ensures SlotTrue(v, other)
    {
      assert SlotTrue(t, other);
    }
  }

  lemma AskOrderly(t: Trace, pid: Pid, request: Request)
    requires Orderly(t)
    ensures Orderly(Make(t, Asks(pid, request)))
  {
    hide Orderly;
    var n := t.net;
    LimitsOf(t);
    if !request.post {
      FewerOrderly(t, Ask(n, pid, request).0);
    } else if request.acceptable {
      if pid in n.slots {
        if n.slots[pid].request == request && n.slots[pid].response.Some? {
          ReceiveOrderly(t, pid);
        }
      } else if |n.slots| < MAX_SLOTS && n.nextId < U64_MAX {
        var (after, _) := Ask(n, pid, request);
        IssueOrderly(t, pid, after.slots[pid], after);
      }
    }
  }

  lemma LimitsOf(t: Trace)
    requires Orderly(t)
    ensures |t.net.log| <= MAX_LOG
  {
  }

  lemma DrainOrderly(t: Trace)
    requires Orderly(t)
    ensures Orderly(Make(t, Drains))
  {
    hide Recorded, Undelivered;
    var v := Make(t, Drains);
    DrainRecorded(t);
    FewerKeys(v.net.slots, t.net.slots);
    forall pid | pid in v.net.slots
      ensures SlotTrue(v, pid)
    {
      assert SlotTrue(t, pid);
      UndeliveredHas(t.net.slots, t.net.slots[pid].id);
    }
  }

  /** An identity is listed exactly if some slot not yet delivered has it. */
  lemma {:induction false} UndeliveredHas(slots: map<Pid, Slot>, id: Id)
    ensures id in Undelivered(slots) <==> exists pid :: pid in slots && !slots[pid].delivered && slots[pid].id == id
    decreases |slots|
  {
    if slots != map[] {
      var first := FirstPid(slots);
      UndeliveredHas(slots - {first}, id);
      assert forall pid :: pid in slots ==> pid == first || pid in slots - {first};
    }
  }

  /** Slots with different identities are listed once each. */
  lemma {:induction false} UndeliveredOnce(slots: map<Pid, Slot>)
    requires forall x, y :: x in slots && y in slots && slots[x].id == slots[y].id ==> x == y
    ensures Once(multiset(Undelivered(slots)))
    decreases |slots|
  {
    if slots != map[] {
      var first := FirstPid(slots);
      var rest := slots - {first};
      UndeliveredOnce(rest);
      if !slots[first].delivered {
        UndeliveredHas(rest, slots[first].id);
        OnceMore(multiset(Undelivered(rest)), slots[first].id);
        assert Undelivered(slots) == [slots[first].id] + Undelivered(rest);
      }
    }
  }

  lemma DrainRecorded(t: Trace)
    requires Orderly(t)
    ensures Recorded(Make(t, Drains))
  {
    hide Once, Undelivered;
    var ids := Undelivered(t.net.slots);
    forall x, y | x in t.net.slots && y in t.net.slots && t.net.slots[x].id == t.net.slots[y].id
      ensures x == y
    {
      assert SlotTrue(t, x) && SlotTrue(t, y);
    }
    UndeliveredOnce(t.net.slots);
    forall id | id in ids
      ensures id in t.issued && id !in t.delivered
    {
      UndeliveredHas(t.net.slots, id);
      var pid :| pid in t.net.slots && !t.net.slots[pid].delivered && t.net.slots[pid].id == id;
      assert SlotTrue(t, pid);
    }
    OnceBoth(t.delivered, multiset(ids));
  }

  lemma OnceBoth<T(!new)>(m: multiset<T>, more: multiset<T>)
    requires Once(m) && Once(more) && forall x :: x in more ==> x !in m
    ensures Once(m + more)
  {
  }

  lemma CompleteOrderly(t: Trace, id: Id, response: Response, valid: bool)
    requires Orderly(t)
    ensures Orderly(Make(t, Completes(id, response, valid)))
  {
    hide Answered, Recorded, Once, SlotTrue;
    var (after, found) := Complete(t.net, id, response, valid);
    if found.Some? {
      var pid := Asker(t.net.slots, id).value;
      AnsweredParts(t.net, pid, response);
      SlotOf(t, pid);
      CompletionRecorded(t, after, id);
      var v := Make(t, Completes(id, response, valid));
      assert v.net.slots.Keys == t.net.slots.Keys;
      FewerKeys(v.net.slots, t.net.slots);
      forall other | other in v.net.slots
        ensures SlotTrue(v, other)
      {
        CompletedSlot(t, v, pid, id, response, other);
      }
    } else {
      assert Make(t, Completes(id, response, valid)) == t;
    }
  }

  lemma SlotOf(t: Trace, pid: Pid)
    requires Orderly(t) && pid in t.net.slots
    ensures SlotTrue(t, pid) && t.net.slots[pid].id in t.issued && t.issued[t.net.slots[pid].id] == pid
    ensures var slot := t.net.slots[pid];
            (slot.delivered <==> slot.id in t.delivered) && (slot.response.Some? <==> slot.id in t.completed)
  {
  }

  /** After a completion every slot agrees with the record again. */
  lemma CompletedSlot(t: Trace, v: Trace, pid: Pid, id: Id, response: Response, other: Pid)
    requires Orderly(t) && pid in t.net.slots && t.net.slots[pid].id == id && other in t.net.slots
    requires v == t.(net := v.net, completed := t.completed + multiset{id}) && |v.net.log| == |t.net.log|
    requires v.net.slots == t.net.slots[pid := t.net.slots[pid].(response := Some(response))]
    ensures SlotTrue(v, other)
  {
    hide Recorded;
    assert SlotTrue(t, pid) && SlotTrue(t, other);
  }

  lemma CompletionRecorded(t: Trace, after: Net, id: Id)
    requires Recorded(t) && id in t.delivered && id !in t.completed && after.nextId == t.net.nextId
    ensures Recorded(t.(net := after, completed := t.completed + multiset{id}))
  {
    hide Once;
    OnceMore(t.completed, id);
  }

  lemma AnsweredParts(n: Net, pid: Pid, response: Response)
    requires pid in n.slots
    ensures var after := Answered(n, pid, response);
            && after.slots == n.slots[pid := n.slots[pid].(response := Some(response))] && after.nextId == n.nextId
            && |after.log| == |n.log|
  {
  }

  lemma MoveOrderly(t: Trace, move: Move)
    requires Orderly(t)
    ensures Orderly(Make(t, move))
  {
    hide Orderly;
    LimitsOf(t);
    match move
    case Asks(pid, request) => AskOrderly(t, pid, request);
    case Drains => DrainOrderly(t);
    case Completes(id, response, valid) => CompleteOrderly(t, id, response, valid);
    case Keeps(live) => FewerOrderly(t, Keep(t.net, live));
    case Discards => FewerOrderly(t, DropAll(t.net));
  }

  lemma BeginningOrderly()
    ensures Orderly(Beginning)
  {
  }

  /** The same for every run of a new net. */
  lemma EveryRunOrderly(moves: seq<Move>)
    ensures Orderly(MakeAll(Beginning, moves))
  {
    hide Orderly;
    BeginningOrderly();
    RunOrderly(Beginning, moves);
  }

  /** In every run identities are never reused, every request is delivered, completed and received at
      most once and in that order, only its own process receives its response, and at most sixteen
      requests are open. */
  lemma {:induction false} RunOrderly(t: Trace, moves: seq<Move>)
    requires Orderly(t)
    ensures Orderly(MakeAll(t, moves))
    decreases |moves|
  {
    hide Orderly, Make;
    if moves != [] {
      MoveOrderly(t, moves[0]);
      RunOrderly(Make(t, moves[0]), moves[1..]);
    }
  }

  /** A new request gets an identity no request had; asking again while it is open changes nothing at
      all, so it is neither delivered nor logged again. */
  lemma AskIsFreshOrIdle(t: Trace, pid: Pid, request: Request)
    requires Orderly(t) && Ask(t.net, pid, request).1.Blocked?
    ensures var (after, reply) := Ask(t.net, pid, request);
            && (if pid in t.net.slots then after == t.net && t.issued[reply.id] == pid else reply.id !in t.issued)
            && Ask(after, pid, request) == (after, reply)
  {
    hide Once;
    if pid in t.net.slots {
      assert SlotTrue(t, pid);
    }
  }

  // ----- The object -----

  /** The slots of `rest` are as before, all others are marked delivered. */
  ghost predicate Marked(before: map<Pid, Slot>, now: map<Pid, Slot>, rest: map<Pid, Slot>) {
    && rest.Keys <= now.Keys == before.Keys && (forall pid :: pid in rest ==> rest[pid] == before[pid])
    && (forall pid :: pid in now ==> now[pid] == if pid in rest then before[pid] else before[pid].(delivered := true))
  }

  lemma NoneMarked(slots: map<Pid, Slot>)
    ensures Marked(slots, slots, slots)
  {
  }

  lemma MarkOne(before: map<Pid, Slot>, now: map<Pid, Slot>, rest: map<Pid, Slot>, pid: Pid)
    requires Marked(before, now, rest) && pid in rest
    ensures pid in now && Marked(before, now[pid := now[pid].(delivered := true)], rest - {pid})
  {
  }

  lemma AllMarked(n: Net, now: map<Pid, Slot>)
    requires Marked(n.slots, now, map[])
    ensures now == Drain(n).0.slots && Outgoing(map[]) == []
  {
    hide Outgoing;
    NoneOutgoing();
  }

  lemma NoneOutgoing()
    ensures Outgoing(map[]) == []
  {
  }

  lemma OutgoingFirst(slots: map<Pid, Slot>)
    requires slots != map[]
    ensures var pid := FirstPid(slots);
            Outgoing(slots) ==
            (if slots[pid].delivered then [] else [(slots[pid].id, slots[pid].request)]) + Outgoing(slots - {pid})
  {
  }

  class VirtualNet {
    var slots: map<Pid, Slot>
    var nextId: nat
    var log: seq<LogEntry>
    var dropped: nat

    constructor ()
      ensures View() == Beginning.net
    {
      slots, nextId, log, dropped := map[], 0, [], 0;
    }

    ghost function View(): Net
      reads this
    {
      Net(slots, nextId, log, dropped)
    }

    method RecordRequest(request: Request, status: Option<nat>)
      modifies this`log, this`dropped
      ensures View() == Logged(old(View()), request, status)
    {
      if |log| >= MAX_LOG {
        dropped := if dropped >= U64_MAX then U64_MAX else dropped + 1;
        return;
      }
      log := log + [LogEntry(request.content, true, status)];
    }

    method HostToolRequest(pid: Pid, request: Request) returns (reply: Reply)
      modifies this
      ensures (View(), reply) == Ask(old(View()), pid, request)
    {
      if !request.post {
        RecordRequest(request, Some(405));
        return Ready(MethodNotAllowed);
      }
      if !request.acceptable {
        return Refused;
      }
      if pid in slots {
        var slot := slots[pid];
        if slot.request != request {
          return Refused;
        }
        if slot.response.Some? {
          slots := slots - {pid};
          return Ready(slot.response.value);
        }
        return Blocked(slot.id);
      }
      if |slots| >= MAX_SLOTS || nextId >= U64_MAX {
        return Refused;
      }
      var id := nextId;
      nextId := id + 1;
      var index := if |log| < MAX_LOG then Some(|log|) else None;
      RecordRequest(request, None);
      slots := slots[pid := Slot(id, request, false, None, index)];
      return Blocked(id);
    }

    /** Mark every slot delivered, collecting the ones that were not. */
    method TakeHostRequests() returns (requests: seq<(Id, Request)>)
      modifies this`slots
      ensures (View(), requests) == Drain(old(View()))
    {
      hide Outgoing, Marked, FirstPid;
      requests := [];
      var rest := slots;
      NoneMarked(slots);
      while rest != map[]
        invariant Marked(old(slots), slots, rest) && requests + Outgoing(rest) == Outgoing(old(slots))
        decreases |rest|
      {
        var pid := FirstPid(rest);
        MarkOne(old(slots), slots, rest, pid);
        OutgoingFirst(rest);
        if !rest[pid].delivered {
          requests := requests + [(rest[pid].id, rest[pid].request)];
        }
        slots := slots[pid := slots[pid].(delivered := true)];
        rest := rest - {pid};
      }
      AllMarked(old(View()), slots);
      assert requests + [] == requests;
    }

    method CompleteHostRequest(id: Id, response: Response, valid: bool) returns (asker: Option<Pid>)
      modifies this
      ensures (View(), asker) == Complete(old(View()), id, response, valid)
    {
      hide Answered;
      if !valid {
        return None;
      }
      var rest := slots;
      while rest != map[]
        invariant View() == old(View()) && Asker(rest, id) == Asker(slots, id)
        invariant rest.Keys <= slots.Keys && forall pid :: pid in rest ==> rest[pid] == slots[pid]
        decreases |rest|
      {
        var pid := FirstPid(rest);
        if rest[pid].id == id {
          if !slots[pid].delivered || slots[pid].response.Some? {
            return None;
          }
          WriteAnswer(pid, response);
          return Some(pid);
        }
        rest := rest - {pid};
      }
      return None;
    }

    method WriteAnswer(pid: Pid, response: Response)
      requires pid in slots
      modifies this
      ensures View() == Answered(old(View()), pid, response)
    {
      var slot := slots[pid];
      if slot.logIndex.Some? && slot.logIndex.value < |log| {
        log := log[slot.logIndex.value := log[slot.logIndex.value].(status := Some(response.status))];
      }
      slots := slots[pid := slot.(response := Some(response))];
    }

    method RetainHostRequests(live: set<Pid>)
      modifies this`slots
      ensures View() == Keep(old(View()), live)
    {
      slots := map pid | pid in slots && pid in live :: slots[pid];
    }

    method DiscardHostRequests()
      modifies this`slots
      ensures View() == DropAll(old(View()))
    {
      slots := map[];
    }
  }

  /** In every orderly state an identity belongs to one process. */
  lemma AskedByOne(t: Trace, x: Pid, y: Pid, id: Id)
    requires Orderly(t) && Asked(t.net, x, id) && Asked(t.net, y, id)
    ensures x == y
  {
    hide Once;
    assert SlotTrue(t, x) && SlotTrue(t, y);
  }
}
