// What passes through pipes over whole runs, and what readiness promises about the next operation.

module DescriptorStreams {
  import opened Basics
  import opened Descriptors
  import opened DescriptorRuns
  import opened DescriptorFork

  /** The bytes a step adds to a pipe. */
  function AcceptedBy(w: World, e: Event, p: PipeId): seq<Byte> {
    if e.Writes? && e.id in w.arena.descriptions && w.arena.descriptions[e.id].description == PipeWriter(p) then
      (match Write(w.arena, e.id, e.bytes).1
       case Success(Ready(count)) => if count <= |e.bytes| then e.bytes[..count] else []
       case _ => [])
    else []
  }

  /** The bytes a step takes out of a pipe. */
  function DeliveredBy(w: World, e: Event, p: PipeId): seq<Byte> {
    if e.Reads? && e.id in w.arena.descriptions && w.arena.descriptions[e.id].description == PipeReader(p) then
      (match Read(w.arena, e.id, e.maximum).1
       case Success(Ready(bytes)) => bytes
       case _ => [])
    else []
  }

  function Accepted(w: World, events: seq<Event>, p: PipeId): seq<Byte>
    decreases |events|
  {
    if events == [] then [] else AcceptedBy(w, events[0], p) + Accepted(Step(w, events[0]), events[1..], p)
  }

  function Delivered(w: World, events: seq<Event>, p: PipeId): seq<Byte>
    decreases |events|
  {
    if events == [] then [] else DeliveredBy(w, events[0], p) + Delivered(Step(w, events[0]), events[1..], p)
  }

  function Buffered(a: Arena, p: PipeId): seq<Byte> {
    if p in a.pipes then a.pipes[p].bytes else []
  }

  // ----- Steps that move no bytes -----

  /** No pipe appears, and the ones that stay keep their bytes. */
  ghost predicate Still(a: Arena, b: Arena) {
    b.nextPipe == a.nextPipe && forall p :: p in b.pipes ==> p in a.pipes && b.pipes[p].bytes == a.pipes[p].bytes
  }

  lemma ReleaseStill(a: Arena, id: Id)
    ensures Still(a, Release(a, id).0)
  {
    hide Drop;
    if id in a.descriptions {
      Dropped(a, id);
    }
  }

  lemma {:induction false} ReleaseAllStill(a: Arena, ids: seq<Id>)
    ensures Still(a, ReleaseAll(a, ids))
    decreases |ids|
  {
    hide Release;
    if ids != [] {
      ReleaseStill(a, ids[0]);
      ReleaseAllStill(Release(a, ids[0]).0, ids[1..]);
    }
  }

  lemma {:induction false} InheritStill(a: Arena, ids: seq<Id>, done: seq<Id>)
    ensures Still(a, Inherit(a, ids, done).0)
    decreases |ids|
  {
    hide ReleaseAll;
    if ids != [] {
      match Retain(a, ids[0])
      case (a1, Failure(_)) => ReleaseAllStill(a1, done);
      case (a1, Success(_)) => InheritStill(a1, ids[1..], done + [ids[0]]);
    }
  }

  lemma InstallStill(a: Arena, t: Table, fd: Fd, id: Id)
    ensures Still(a, Install(a, t, fd, id).0)
  {
    hide Release;
    if fd in t.entries {
      ReleaseStill(Retain(a, id).0, t.entries[fd]);
    }
  }

  lemma DiscardStill(a: Arena, id: Id)
    ensures Still(a, Discard(a, id).0)
  {
    hide Release;
    ReleaseStill(Retain(a, id).0, id);
  }

  lemma SetLockStill(a: Arena, id: Id, inode: nat, mode: Option<Mode>)
    ensures SetLock(a, id, inode, mode).0.pipes == a.pipes && SetLock(a, id, inode, mode).0.nextPipe == a.nextPipe
  {
  }

  /** Every step but a read, a write and a new pipe. */
  lemma OtherStill(w: World, e: Event)
    requires !e.Reads? && !e.Writes? && !e.MakePipe?
    ensures Still(w.arena, Step(w, e).arena)
  {
    hide Release, ReleaseAll, Install, Discard, SetLock, Inherit, Still, Named;
    StillSame(w.arena);
    match e
    case Open(_) => AllocateStill(w.arena, e.description);
    case Forget(id) => DiscardStill(w.arena, id);
    case Installs(pid, fd, id) => InstallStill(w.arena, TableOf(w, pid), fd, id);
    case Dups(pid, source, destination) =>
      var t := TableOf(w, pid);
      if source in t.entries {
        InstallStill(w.arena, t, destination, t.entries[source]);
      }
    case Closes(pid, fd) =>
      var t := TableOf(w, pid);
      if fd in t.entries {
        ReleaseStill(w.arena, t.entries[fd]);
      }
    case Flags(_, _, _) =>
    case Execs(pid) => ReleaseAllStill(w.arena, Named(Flagged(TableOf(w, pid))));
    case Forks(pid, _) => InheritStill(w.arena, Named(TableOf(w, pid).entries), []);
    case Exits(pid) => ReleaseAllStill(w.arena, Named(TableOf(w, pid).entries));
    case Holds(id) => RetainStill(w.arena, id);
    case Drops(id) => ReleaseStill(w.arena, id);
    case Locks(id, inode, mode) => LockStill(w.arena, id, inode, mode);
    case TakesChanges => FlagStill(w.arena);
    case Feeds(id, bytes) => HostStill(w.arena, id, bytes);
    case Shuts(id) => HostStill(w.arena, id, []);
    case Drains(id) => HostStill(w.arena, id, []);
  }

  lemma StillSame(a: Arena)
    ensures Still(a, a)
  {
  }

  lemma AllocateStill(a: Arena, d: Description)
    ensures Still(a, Allocate(a, d).0)
  {
  }

  lemma RetainStill(a: Arena, id: Id)
    ensures Still(a, Retain(a, id).0)
  {
  }

  lemma LockStill(a: Arena, id: Id, inode: nat, mode: Option<Mode>)
    ensures Still(a, SetLock(a, id, inode, mode).0)
  {
    hide SetLock;
    SetLockStill(a, id, inode, mode);
  }

  lemma HostStill(a: Arena, id: Id, bytes: seq<Byte>)
    ensures Still(a, AppendInput(a, id, bytes).0) && Still(a, CloseInput(a, id).0) && Still(a, DrainCapture(a, id).0)
  {
  }

  lemma FlagStill(a: Arena)
    ensures Still(a, a.(locksChanged := false))
  {
  }

  // ----- First in, first out -----

  /** One step: what a pipe held and took in is what it gave out and holds, unless the step removed
      the pipe, in which case nothing moved. */
  lemma StepConserves(w: World, e: Event, p: PipeId)
    requires Sound(w)
    ensures var v := Step(w, e);
            if p in w.arena.pipes && p !in v.arena.pipes then
              AcceptedBy(w, e, p) == [] == DeliveredBy(w, e, p) && p < v.arena.nextPipe
            else Buffered(w.arena, p) + AcceptedBy(w, e, p) == DeliveredBy(w, e, p) + Buffered(v.arena, p)
  {
    hide Sound, OpenPipe;
    SoundWithin(w);
    if e.Reads? {
      ReadConserves(w.arena, e.id, e.maximum, p);
    } else if e.Writes? {
      WriteConserves(w.arena, e.id, e.bytes, p);
    } else if e.MakePipe? {
      NewPipeEmpty(w.arena, e.capacity, p);
    } else {
      OtherStill(w, e);
    }
  }

  lemma NewPipeEmpty(a: Arena, capacity: nat, p: PipeId)
    requires Within(a)
    ensures var b := OpenPipe(a, capacity).0; (p in a.pipes ==> p in b.pipes) && Buffered(b, p) == Buffered(a, p)
  {
    hide OpenPipe;
    FreshId(a);
    OpenPipeExactly(a, capacity);
  }

  lemma ReadConserves(a: Arena, id: Id, maximum: nat, p: PipeId)
    ensures var (b, r) := Read(a, id, maximum);
            && b.pipes.Keys == a.pipes.Keys
            && Buffered(a, p) == DeliveredBy(World(a, map[], multiset{}), Reads(id, maximum), p) + Buffered(b, p)
  {
    if id in a.descriptions && a.descriptions[id].description == PipeReader(p) && p in a.pipes {
      var count := Min(maximum, |a.pipes[p].bytes|);
      assert a.pipes[p].bytes == a.pipes[p].bytes[..count] + a.pipes[p].bytes[count..];
    }
  }

  lemma WriteConserves(a: Arena, id: Id, bytes: seq<Byte>, p: PipeId)
    ensures var (b, r) := Write(a, id, bytes);
            && b.pipes.Keys == a.pipes.Keys
            && Buffered(a, p) + AcceptedBy(World(a, map[], multiset{}), Writes(id, bytes), p) == Buffered(b, p)
  {
  }

  lemma NothingMoves(w: World, e: Event, p: PipeId)
    requires p !in w.arena.pipes
    ensures AcceptedBy(w, e, p) == [] == DeliveredBy(w, e, p)
  {
  }

  /** A pipe that is gone never comes back. */
  lemma {:induction false} GoneForGood(w: World, events: seq<Event>, p: PipeId)
    requires Sound(w) && p !in w.arena.pipes && p < w.arena.nextPipe
    ensures Accepted(w, events, p) == [] == Delivered(w, events, p) && p !in Run(w, events).arena.pipes
    decreases |events|
  {
    hide Sound, Step, AcceptedBy, DeliveredBy;
    if events != [] {
      NothingMoves(w, events[0], p);
      StaysGone(w, events[0], p);
      StepSound(w, events[0]);
      GoneForGood(Step(w, events[0]), events[1..], p);
    }
  }

  lemma StaysGone(w: World, e: Event, p: PipeId)
    requires Sound(w) && p !in w.arena.pipes && p < w.arena.nextPipe
    ensures p !in Step(w, e).arena.pipes && p < Step(w, e).arena.nextPipe
  {
    hide Sound, Read, Write;
    SoundWithin(w);
    if e.MakePipe? {
      FreshId(w.arena);
      OpenPipeExactly(w.arena, e.capacity);
    } else if e.Reads? {
      IoKeepsPipes(w.arena, e.id, e.maximum, []);
    } else if e.Writes? {
      IoKeepsPipes(w.arena, e.id, 0, e.bytes);
    } else {
      OtherStill(w, e);
    }
  }

  lemma IoKeepsPipes(a: Arena, id: Id, maximum: nat, bytes: seq<Byte>)
    ensures Read(a, id, maximum).0.pipes.Keys == a.pipes.Keys && Read(a, id, maximum).0.nextPipe == a.nextPipe
    ensures Write(a, id, bytes).0.pipes.Keys == a.pipes.Keys && Write(a, id, bytes).0.nextPipe == a.nextPipe
  {
  }

  /** Over every run, the bytes delivered by a pipe are a prefix of the bytes it held and accepted,
      in order; while the pipe lives, the rest is exactly its buffer. */
  lemma {:induction false} PipeIsAQueue(w: World, events: seq<Event>, p: PipeId)
    requires Sound(w)
    ensures Delivered(w, events, p) <= Buffered(w.arena, p) + Accepted(w, events, p)
    ensures p in Run(w, events).arena.pipes ==>
              Buffered(w.arena, p) + Accepted(w, events, p) ==
              Delivered(w, events, p) + Buffered(Run(w, events).arena, p)
    decreases |events|
  {
    hide Sound, Step, AcceptedBy, DeliveredBy;
    if events != [] {
      var v, rest := Step(w, events[0]), events[1..];
      StepConserves(w, events[0], p);
      StepSound(w, events[0]);
      var held, taken, given := Buffered(w.arena, p), AcceptedBy(w, events[0], p), DeliveredBy(w, events[0], p);
      if p in w.arena.pipes && p !in v.arena.pipes {
        GoneForGood(v, rest, p);
      } else {
        PipeIsAQueue(v, rest, p);
        Rebracket(held, taken, given, Buffered(v.arena, p), Accepted(v, rest, p), Delivered(v, rest, p));
        if p in Run(v, rest).arena.pipes {
          assert given + (Delivered(v, rest, p) + Buffered(Run(v, rest).arena, p)) ==
                 (given + Delivered(v, rest, p)) + Buffered(Run(v, rest).arena, p);
        }
      }
    }
  }

  lemma Rebracket(held: seq<Byte>, taken: seq<Byte>, given: seq<Byte>, left: seq<Byte>, more: seq<Byte>, out: seq<Byte>)
    requires held + taken == given + left && out <= left + more
    ensures held + (taken + more) == given + (left + more) && given + out <= given + (left + more)
  {
    assert held + (taken + more) == (held + taken) + more;
    assert given + (left + more) == (given + left) + more;
  }

  // ----- End of file and readiness -----

  /** A read of at least one byte sees the end of a pipe exactly when its buffer is empty and no live
      description is its writing end. */
  lemma EndOfFileExactly(w: World, id: Id, maximum: nat, p: PipeId)
    requires Sound(w) && id in w.arena.descriptions && w.arena.descriptions[id].description == PipeReader(p)
    requires maximum > 0
    ensures Read(w.arena, id, maximum).1 == Success(Ready([])) <==>
            && Buffered(w.arena, p) == []
            && forall other :: other in w.arena.descriptions ==>
                 w.arena.descriptions[other].description != PipeWriter(p)
  {
    hide Counted, NoneDangles, TablesSound, LocksAgree, Within;
    assert p in w.arena.pipes && Connected(w.arena, p);
    WriterLives(w.arena, p);
  }

  lemma WriterLives(a: Arena, p: PipeId)
    ensures |Ends(a, p, false)| == 0 <==> forall other :: other in a.descriptions ==>
            a.descriptions[other].description != PipeWriter(p)
  {
    if |Ends(a, p, false)| == 0 {
      forall other | other in a.descriptions
        ensures a.descriptions[other].description != PipeWriter(p)
      {
        assert other !in Ends(a, p, false);
      }
    } else {
      assert Ends(a, p, false) != {};
      assert (forall id :: id !in Ends(a, p, false)) ==> Ends(a, p, false) == {};
    }
  }

  /** How a read of `maximum` bytes must turn out, given what readiness reported. */
  ghost predicate ReadAsForetold(ready: Poll<Readiness>, got: Outcome<Poll<seq<Byte>>>, maximum: nat) {
    match ready
    case Blocked(wait) => got == Success(Blocked(wait))
    case Ready(r) =>
      got.Success? && got.value.Ready? && |got.value.value| == Min(maximum, r.bytes) && (r.bytes == 0 ==> r.hangup)
  }

  /** How a write must turn out, given what readiness reported. */
  ghost predicate WriteAsForetold(ready: Poll<Readiness>, put: Outcome<Poll<nat>>, length: nat) {
    match ready
    case Blocked(wait) => put == Success(Blocked(wait))
    case Ready(r) => if r.hangup then put == Failure(BrokenPipe)
                     else r.bytes > 0 && put == Success(Ready(Min(length, r.bytes)))
  }

  /** Readiness of an input stream or a pipe says exactly whether the operation blocks, on what, and
      how many bytes it moves. */
  lemma ReadinessForetells(w: World, id: Id, maximum: nat, bytes: seq<Byte>)
    requires Sound(w) && id in w.arena.descriptions
    ensures var d := w.arena.descriptions[id].description;
            && (d.Input? || d.PipeReader? ==>
                  && ReadyFor(w.arena, id, false).Success? && ReadyFor(w.arena, id, true) == Failure(WrongAccess)
                  && ReadAsForetold(ReadyFor(w.arena, id, false).value, Read(w.arena, id, maximum).1, maximum))
            && (d.PipeWriter? ==>
                  && ReadyFor(w.arena, id, true).Success? && ReadyFor(w.arena, id, false) == Failure(WrongAccess)
                  && WriteAsForetold(ReadyFor(w.arena, id, true).value, Write(w.arena, id, bytes).1, |bytes|))
  {
    hide Counted, NoneDangles, TablesSound, LocksAgree, Connected;
    var d := w.arena.descriptions[id].description;
    if d.PipeReader? || d.PipeWriter? {
      assert d.pipe in w.arena.pipes && PipeWithin(w.arena.pipes[d.pipe]);
    }
  }
}
