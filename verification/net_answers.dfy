// What is said in the host-request protocol: the host gets the request that was asked, the process gets
// the response that was given to it, and the log names its status.

module HostAnswers {
  import opened Basics
  import opened HostRequests

  /** What was asked and what was answered under each identity. */
  datatype Book = Book(asked: map<Id, Request>, answers: map<Id, Response>)

  /** The book one move further on. */
  function Noted(book: Book, t: Trace, move: Move): Book {
    match move
    case Asks(pid, request) =>
      if pid !in t.net.slots && pid in Ask(t.net, pid, request).0.slots then
        book.(asked := book.asked[t.net.nextId := request])
      else book
    case Completes(id, response, valid) =>
      if Complete(t.net, id, response, valid).1.Some? then book.(answers := book.answers[id := response]) else book
    case _ => book
  }

  function AllNoted(book: Book, t: Trace, moves: seq<Move>): Book
    decreases |moves|
  {
    if moves == [] then book else AllNoted(Noted(book, t, moves[0]), Make(t, moves[0]), moves[1..])
  }

  /** A slot holds the request that was asked under its identity, and the response that was given, if any;
      its line of the log names that response's status. */
  ghost predicate SlotTruthful(n: Net, book: Book, slot: Slot) {
    && slot.id in book.asked && book.asked[slot.id] == slot.request
    && (slot.response.Some? <==> slot.id in book.answers)
    && (slot.response.Some? ==> book.answers[slot.id] == slot.response.value)
    && (slot.logIndex.Some? ==>
          && slot.logIndex.value < |n.log| && n.log[slot.logIndex.value].content == slot.request.content
          && n.log[slot.logIndex.value].status ==
             if slot.response.Some? then Some(slot.response.value.status) else None)
  }

  /** Different processes hold different identities and different lines of the log. */
  ghost predicate Apart(x: Slot, y: Slot) {
    x.id != y.id && (x.logIndex.Some? && y.logIndex.Some? ==> x.logIndex != y.logIndex)
  }

  ghost predicate Truthful(n: Net, book: Book) {
    && (forall pid :: pid in n.slots ==> SlotTruthful(n, book, n.slots[pid]))
    && (forall x, y :: x in n.slots && y in n.slots && x != y ==> Apart(n.slots[x], n.slots[y]))
    && (forall id :: id in book.asked ==> id < n.nextId) && (forall id :: id in book.answers ==> id < n.nextId)
  }

  lemma SlotKnown(n: Net, book: Book, pid: Pid)
    requires Truthful(n, book) && pid in n.slots
    ensures SlotTruthful(n, book, n.slots[pid]) && n.slots[pid].id < n.nextId
  {
  }

  /** More log lines and other answers do not matter to a slot. */
  lemma SlotStays(n: Net, book: Book, m: Net, after: Book, slot: Slot)
    requires SlotTruthful(n, book, slot)
    requires slot.id in after.asked && after.asked[slot.id] == book.asked[slot.id]
    requires slot.id in after.answers <==> slot.id in book.answers
    requires slot.id in after.answers ==> after.answers[slot.id] == book.answers[slot.id]
    requires |n.log| <= |m.log| && (slot.logIndex.Some? ==> m.log[slot.logIndex.value] == n.log[slot.logIndex.value])
    ensures SlotTruthful(m, after, slot)
  {
  }

  lemma AskTruthful(t: Trace, book: Book, pid: Pid, request: Request)
    requires Truthful(t.net, book)
    ensures Truthful(Ask(t.net, pid, request).0, Noted(book, t, Asks(pid, request)))
  {
    hide SlotTruthful;
    var n := t.net;
    var m := Ask(n, pid, request).0;
    var after := Noted(book, t, Asks(pid, request));
    AskShape(n, pid, request);
    forall other | other in m.slots
      ensures SlotTruthful(m, after, m.slots[other])
    {
      if other in n.slots {
        SlotKnown(n, book, other);
        KnownAsked(n, book, other);
        SlotStays(n, book, m, after, m.slots[other]);
      } else {
        NewSlotTruthful(n, pid, request, book);
      }
    }
    forall x, y | x in m.slots && y in m.slots && x != y
      ensures Apart(m.slots[x], m.slots[y])
    {
      NewApart(n, book, pid, request, x, y);
    }
  }

  lemma KnownAsked(n: Net, book: Book, pid: Pid)
    requires Truthful(n, book) && pid in n.slots
    ensures n.slots[pid].id in book.asked && n.slots[pid].id < n.nextId
    ensures n.slots[pid].logIndex.Some? ==> n.slots[pid].logIndex.value < |n.log|
  {
  }

  /** What asking does to slots and log. */
  lemma AskShape(n: Net, pid: Pid, request: Request)
    ensures var m := Ask(n, pid, request).0;
            && n.log <= m.log && m.nextId >= n.nextId
            && (forall other :: other in m.slots && other in n.slots ==> m.slots[other] == n.slots[other])
            && (forall other :: other in m.slots && other !in n.slots ==> other == pid && m.nextId == n.nextId + 1)
            && (m.nextId != n.nextId ==> pid in m.slots && pid !in n.slots)
  {
  }

  lemma NewSlotTruthful(n: Net, pid: Pid, request: Request, book: Book)
    requires pid !in n.slots && pid in Ask(n, pid, request).0.slots
    requires forall id :: id in book.answers ==> id < n.nextId
    ensures var m := Ask(n, pid, request).0;
            SlotTruthful(m, book.(asked := book.asked[n.nextId := request]), m.slots[pid])
    ensures Ask(n, pid, request).0.slots[pid].id == n.nextId
  {
  }

  lemma NewApart(n: Net, book: Book, pid: Pid, request: Request, x: Pid, y: Pid)
    requires Truthful(n, book)
    requires var m := Ask(n, pid, request).0; x in m.slots && y in m.slots && x != y
    ensures var m := Ask(n, pid, request).0; Apart(m.slots[x], m.slots[y])
  {
    hide SlotTruthful;
    AskShape(n, pid, request);
    if x in n.slots {
      KnownAsked(n, book, x);
    }
    if y in n.slots {
      KnownAsked(n, book, y);
    }
  }

  lemma CompleteTruthful(t: Trace, book: Book, id: Id, response: Response, valid: bool)
    requires Truthful(t.net, book)
    ensures Truthful(Complete(t.net, id, response, valid).0, Noted(book, t, Completes(id, response, valid)))
  {
    hide Truthful;
    var n := t.net;
    var asker := Complete(n, id, response, valid).1;
    if asker.Some? {
      CompletedShape(n, id, response, valid);
      ReceivedTruthful(n, book, asker.value, response);
    }
  }

  lemma ReceivedTruthful(n: Net, book: Book, pid: Pid, response: Response)
    requires Truthful(n, book) && pid in n.slots
    ensures Truthful(Answered(n, pid, response), book.(answers := book.answers[n.slots[pid].id := response]))
  {
    hide SlotTruthful, Apart;
    var m := Answered(n, pid, response);
    var after := book.(answers := book.answers[n.slots[pid].id := response]);
    AnsweredShape(n, pid, response);
    KnownAsked(n, book, pid);
    forall other | other in m.slots
      ensures SlotTruthful(m, after, m.slots[other])
    {
      OneTruthful(n, book, pid, response, other);
    }
    forall x, y | x in m.slots && y in m.slots && x != y
      ensures Apart(m.slots[x], m.slots[y])
    {
      SameApart(n.slots[x], n.slots[y], m.slots[x], m.slots[y]);
    }
  }

  lemma OneTruthful(n: Net, book: Book, pid: Pid, response: Response, other: Pid)
    requires Truthful(n, book) && pid in n.slots && other in n.slots
    ensures var m := Answered(n, pid, response);
            && other in m.slots
            && SlotTruthful(m, book.(answers := book.answers[n.slots[pid].id := response]), m.slots[other])
  {
    hide SlotTruthful, Truthful;
    var m := Answered(n, pid, response);
    var after := book.(answers := book.answers[n.slots[pid].id := response]);
    AnsweredShape(n, pid, response);
    SlotKnown(n, book, other);
    if other == pid {
      AnsweredTruthful(n, book, pid, response);
    } else {
      OthersApart(n, book, pid, other);
      KnownAsked(n, book, other);
      SlotStays(n, book, m, after, m.slots[other]);
    }
  }

  lemma SameApart(x: Slot, y: Slot, u: Slot, v: Slot)
    requires Apart(x, y) && u.id == x.id && v.id == y.id && u.logIndex == x.logIndex && v.logIndex == y.logIndex
    ensures Apart(u, v)
  {
  }

  lemma OthersApart(n: Net, book: Book, x: Pid, y: Pid)
    requires Truthful(n, book) && x in n.slots && y in n.slots && x != y
    ensures n.slots[x].id != n.slots[y].id
    ensures n.slots[x].logIndex.Some? && n.slots[y].logIndex.Some? ==> n.slots[x].logIndex != n.slots[y].logIndex
  {
    hide SlotTruthful;
    assert Apart(n.slots[x], n.slots[y]);
  }

  lemma CompletedShape(n: Net, id: Id, response: Response, valid: bool)
    requires Complete(n, id, response, valid).1.Some?
    ensures var (m, asker) := Complete(n, id, response, valid);
            asker.value in n.slots && n.slots[asker.value].id == id && m == Answered(n, asker.value, response)
  {
  }

  /** What an answer does to slots and log. */
  lemma AnsweredShape(n: Net, pid: Pid, response: Response)
    requires pid in n.slots
    ensures var m := Answered(n, pid, response);
            && m.nextId == n.nextId && |m.log| == |n.log| && m.slots.Keys == n.slots.Keys
            && (forall other :: other in n.slots ==>
                  m.slots[other].id == n.slots[other].id && m.slots[other].logIndex == n.slots[other].logIndex)
            && (forall other :: other in n.slots && other != pid ==> m.slots[other] == n.slots[other])
            && (forall i :: 0 <= i < |n.log| && n.slots[pid].logIndex != Some(i) ==> m.log[i] == n.log[i])
  {
  }

  lemma AnsweredTruthful(n: Net, book: Book, pid: Pid, response: Response)
    requires pid in n.slots && SlotTruthful(n, book, n.slots[pid])
    ensures var m := Answered(n, pid, response);
            SlotTruthful(m, book.(answers := book.answers[n.slots[pid].id := response]), m.slots[pid])
  {
  }

  lemma DrainTruthful(n: Net, book: Book)
    requires Truthful(n, book)
    ensures Truthful(Drain(n).0, book)
  {
    hide Outgoing;
    var m := Drain(n).0;
    forall pid | pid in m.slots
      ensures SlotTruthful(m, book, m.slots[pid])
    {
      assert SlotTruthful(n, book, n.slots[pid]);
    }
    forall x, y | x in m.slots && y in m.slots && x != y
      ensures Apart(m.slots[x], m.slots[y])
    {
      assert Apart(n.slots[x], n.slots[y]);
    }
  }

  lemma FewerTruthful(n: Net, book: Book, m: Net)
    requires Truthful(n, book) && m == n.(slots := m.slots) && m.slots.Keys <= n.slots.Keys
    requires forall pid :: pid in m.slots ==> m.slots[pid] == n.slots[pid]
    ensures Truthful(m, book)
  {
    hide Apart;
    forall pid | pid in m.slots
      ensures SlotTruthful(m, book, m.slots[pid])
    {
      assert SlotTruthful(n, book, n.slots[pid]);
    }
  }

  lemma MoveTruthful(t: Trace, book: Book, move: Move)
    requires Truthful(t.net, book)
    ensures Truthful(Make(t, move).net, Noted(book, t, move))
  {
    hide Truthful, Ask, Complete, Outgoing;
    match move
    case Asks(pid, request) => AskTruthful(t, book, pid, request);
    case Drains => DrainTruthful(t.net, book);
    case Completes(id, response, valid) => CompleteTruthful(t, book, id, response, valid);
    case Keeps(live) => FewerTruthful(t.net, book, Keep(t.net, live));
    case Discards => FewerTruthful(t.net, book, DropAll(t.net));
  }

  /** In every run the slots hold exactly what was asked and what was answered. */
  lemma {:induction false} RunTruthful(t: Trace, book: Book, moves: seq<Move>)
    requires Truthful(t.net, book)
    ensures Truthful(MakeAll(t, moves).net, AllNoted(book, t, moves))
    decreases |moves|
  {
    hide Truthful, Make, Noted;
    if moves != [] {
      MoveTruthful(t, book, moves[0]);
      RunTruthful(Make(t, moves[0]), Noted(book, t, moves[0]), moves[1..]);
    }
  }

  /** The same of every run of a new net. */
  lemma EveryRunTruthful(moves: seq<Move>)
    ensures Truthful(MakeAll(Beginning, moves).net, AllNoted(Book(map[], map[]), Beginning, moves))
  {
    RunTruthful(Beginning, Book(map[], map[]), moves);
  }

  /** After every run from the start: a process gets a response to an acceptable POST exactly when it had asked
      that very request and the host has completed it, and it gets what the host completed it with; its slot
      is then free, and no other slot changes. Anything but a POST is answered at once with status 405. */
  lemma ReceivesItsAnswer(moves: seq<Move>, pid: Pid, request: Request)
    ensures var t, book := MakeAll(Beginning, moves), AllNoted(Book(map[], map[]), Beginning, moves);
            var (after, reply) := Ask(t.net, pid, request);
            && (request.post ==>
                  (reply.Ready? <==>
                   && request.acceptable && pid in t.net.slots
                   && var id := t.net.slots[pid].id;
                   id in book.asked && book.asked[id] == request && id in book.answers))
            && (request.post && reply.Ready? ==>
                  reply.response == book.answers[t.net.slots[pid].id] && after.slots == t.net.slots - {pid})
            && (!request.post ==> reply.Ready? && reply.response.status == 405 && after.slots == t.net.slots)
  {
    hide MakeAll, AllNoted;
    EveryRunTruthful(moves);
    var t, book := MakeAll(Beginning, moves), AllNoted(Book(map[], map[]), Beginning, moves);
    if pid in t.net.slots {
      SlotKnown(t.net, book, pid);
    }
  }

  /** After every run from the start: a completion is accepted exactly when the response is valid and the
      request is open, was delivered and has no answer yet; the process to wake is the one that asked. */
  lemma CompletesExactly(moves: seq<Move>, id: Id, response: Response, valid: bool, pid: Pid)
    ensures var t, book := MakeAll(Beginning, moves), AllNoted(Book(map[], map[]), Beginning, moves);
            Complete(t.net, id, response, valid).1 == Some(pid) <==>
            valid && Asked(t.net, pid, id) && id in t.delivered && id !in book.answers
  {
    hide MakeAll, AllNoted, Truthful, SlotTruthful, Recorded;
    EveryRunTruthful(moves);
    EveryRunOrderly(moves);
    var t, book := MakeAll(Beginning, moves), AllNoted(Book(map[], map[]), Beginning, moves);
    var asker := Asker(t.net.slots, id);
    if asker.Some? {
      assert SlotTrue(t, asker.value);
      SlotAnswered(t.net, book, asker.value);
      if Asked(t.net, pid, id) {
        AskedByOne(t, pid, asker.value, id);
      }
    }
  }

  lemma SlotAnswered(n: Net, book: Book, pid: Pid)
    requires Truthful(n, book) && pid in n.slots
    ensures n.slots[pid].response.Some? <==> n.slots[pid].id in book.answers
  {
    SlotKnown(n, book, pid);
  }

  /** After every run from the start: the host gets each request that is open and not delivered yet, with the
      content that was asked. */
  lemma DrainsWhatWasAsked(moves: seq<Move>, id: Id, request: Request)
    ensures var t, book := MakeAll(Beginning, moves), AllNoted(Book(map[], map[]), Beginning, moves);
            (id, request) in Drain(t.net).1 <==>
            && id in book.asked && book.asked[id] == request
            && exists pid :: pid in t.net.slots && t.net.slots[pid].id == id && !t.net.slots[pid].delivered
  {
    hide MakeAll, AllNoted, SlotTruthful;
    EveryRunTruthful(moves);
    var t, book := MakeAll(Beginning, moves), AllNoted(Book(map[], map[]), Beginning, moves);
    OutgoingHas(t.net.slots, id, request);
    forall pid | pid in t.net.slots && t.net.slots[pid].id == id
      ensures id in book.asked && book.asked[id] == t.net.slots[pid].request
    {
      SlotAsked(t.net, book, pid);
    }
  }

  lemma SlotAsked(n: Net, book: Book, pid: Pid)
    requires Truthful(n, book) && pid in n.slots
    ensures n.slots[pid].id in book.asked && book.asked[n.slots[pid].id] == n.slots[pid].request
  {
    SlotKnown(n, book, pid);
  }

  lemma {:induction false} OutgoingHas(slots: map<Pid, Slot>, id: Id, request: Request)
    ensures (id, request) in Outgoing(slots) <==>
            exists pid :: pid in slots && slots[pid].id == id && slots[pid].request == request && !slots[pid].delivered
    decreases |slots|
  {
    if slots != map[] {
      var first := FirstPid(slots);
      var rest := slots - {first};
      OutgoingHas(rest, id, request);
      assert forall pid :: pid in slots ==> pid == first || (pid in rest && rest[pid] == slots[pid]);
      assert forall pid :: pid in rest ==> pid in slots && rest[pid] == slots[pid];
    }
  }

  // ----- Requests that are given up -----

  /** No process has a request open under an identity. */
  ghost predicate Gone(n: Net, id: Id) {
    id < n.nextId && forall pid :: pid in n.slots ==> n.slots[pid].id != id
  }

  lemma MoveGone(t: Trace, move: Move, id: Id)
    requires Gone(t.net, id)
    ensures Gone(Make(t, move).net, id)
  {
    hide Outgoing, Undelivered, Asker;
    if move.Asks? {
      AskShape(t.net, move.pid, move.request);
      if move.pid !in t.net.slots && move.pid in Ask(t.net, move.pid, move.request).0.slots {
        NewIdentity(t.net, move.pid, move.request);
      }
    }
  }

  lemma NewIdentity(n: Net, pid: Pid, request: Request)
    requires pid !in n.slots && pid in Ask(n, pid, request).0.slots
    ensures Ask(n, pid, request).0.slots[pid].id == n.nextId
  {
  }

  /** Over every run a request that is gone stays gone: it is not delivered and no completion of it is accepted. */
  lemma {:induction false} GoneForGood(t: Trace, moves: seq<Move>, id: Id, response: Response, valid: bool)
    requires Gone(t.net, id)
    ensures var n := MakeAll(t, moves).net;
            && Gone(n, id) && Complete(n, id, response, valid).1.None?
            && (forall request :: (id, request) !in Drain(n).1)
    decreases |moves|
  {
    hide Make, Gone;
    if moves == [] {
      GoneNow(t.net, id, response, valid);
    } else {
      MoveGone(t, moves[0], id);
      GoneForGood(Make(t, moves[0]), moves[1..], id, response, valid);
    }
  }

  lemma GoneNow(n: Net, id: Id, response: Response, valid: bool)
    requires Gone(n, id)
    ensures Complete(n, id, response, valid).1.None? && forall request :: (id, request) !in Drain(n).1
  {
    hide Outgoing;
    forall request
      ensures (id, request) !in Outgoing(n.slots)
    {
      OutgoingHas(n.slots, id, request);
    }
  }

  /** Keeping the live processes gives up exactly the others' requests, for good; the live ones' stay as they are. */
  lemma KeepExactly(t: Trace, live: set<Pid>, pid: Pid, moves: seq<Move>, response: Response, valid: bool)
    requires Orderly(t) && pid in t.net.slots
    ensures var kept, id := Make(t, Keeps(live)), t.net.slots[pid].id;
            && (pid in live <==> pid in kept.net.slots) && (pid in live ==> kept.net.slots[pid] == t.net.slots[pid])
            && kept.net.log == t.net.log && kept.net.nextId == t.net.nextId
            && (pid !in live ==> Complete(MakeAll(kept, moves).net, id, response, valid).1.None?)
  {
    hide MakeAll, Once, Complete;
    var kept, id := Make(t, Keeps(live)), t.net.slots[pid].id;
    if pid !in live {
      assert SlotTrue(t, pid);
      forall other | other in kept.net.slots
        ensures kept.net.slots[other].id != id
      {
        if t.net.slots[other].id == id {
          AskedByOne(t, pid, other, id);
        }
      }
      GoneForGood(kept, moves, id, response, valid);
    }
  }

  /** Discarding gives up every request, for good. */
  lemma DiscardExactly(t: Trace, id: Id, moves: seq<Move>, response: Response, valid: bool)
    requires id < t.net.nextId
    ensures var none := Make(t, Discards);
            && none.net.slots == map[] && none.net.log == t.net.log
            && Complete(MakeAll(none, moves).net, id, response, valid).1.None?
  {
    hide MakeAll, Complete;
    GoneForGood(Make(t, Discards), moves, id, response, valid);
  }

  // ----- The log -----

  /** A move that is one more request for the log. */
  predicate Records(n: Net, move: Move) {
    move.Asks? && (!move.request.post || Ask(n, move.pid, move.request).0.nextId != n.nextId)
  }

  /** What a move does to the log. */
  ghost predicate LogMoves(n: Net, m: Net, records: bool, line: Option<LogEntry>) {
    && |n.log| <= |m.log| && (forall i :: 0 <= i < |n.log| ==> m.log[i].content == n.log[i].content)
    && (n.dropped < U64_MAX ==> |m.log| + m.dropped == |n.log| + n.dropped + if records then 1 else 0)
    && (records && |n.log| < 4096 ==> |m.log| == |n.log| + 1 && Some(m.log[|n.log|]) == line)
  }

  lemma AskLogs(n: Net, pid: Pid, request: Request)
    requires |n.log| <= MAX_LOG
    ensures LogMoves(n, Ask(n, pid, request).0, Records(n, Asks(pid, request)),
                     Some(LogEntry(request.content, true, if request.post then None else Some(405))))
  {
  }

  lemma CompleteLogs(n: Net, id: Id, response: Response, valid: bool)
    ensures LogMoves(n, Complete(n, id, response, valid).0, false, None)
  {
    hide Asker;
  }

  /** Lines of the log and dropped lines together count the requests, until the count of dropped ones is full; lines
      keep their place and content, and a request that is not a POST is logged with status 405. */
  lemma LogExactly(t: Trace, move: Move)
    requires Orderly(t)
    ensures LogMoves(t.net, Make(t, move).net, Records(t.net, move),
                     if move.Asks? then Some(LogEntry(move.request.content, true,
                                                      if move.request.post then None else Some(405)))
                     else None)
  {
    hide Recorded, Outgoing, Undelivered, SlotTrue, Ask, Complete;
    if move.Asks? {
      AskLogs(t.net, move.pid, move.request);
    } else if move.Completes? {
      CompleteLogs(t.net, move.id, move.response, move.valid);
    }
  }
}
