// What passes through captured output and host-fed input over whole runs.

module DescriptorCapture {
  import opened Basics
  import opened Descriptors
  import opened DescriptorRuns
  import opened DescriptorFork

  // ----- Identities -----

  /** Descriptions that stay are the same as before; new ones have new identities. */
  ghost predicate Kept(a: Arena, b: Arena) {
    && b.nextId >= a.nextId
    && (forall id :: id in b.descriptions ==>
          id >= a.nextId || (id in a.descriptions && b.descriptions[id].description == a.descriptions[id].description))
  }

  lemma KeptSame(a: Arena)
    ensures Kept(a, a)
  {
  }

  lemma KeptThen(a: Arena, b: Arena, c: Arena)
    requires Kept(a, b) && Kept(b, c)
    ensures Kept(a, c)
  {
  }

  lemma AllocateKept(a: Arena, d: Description)
    ensures Kept(a, Allocate(a, d).0)
  {
  }

  lemma RetainKept(a: Arena, id: Id)
    ensures Kept(a, Retain(a, id).0)
  {
  }

  lemma ReleaseKept(a: Arena, id: Id)
    ensures Kept(a, Release(a, id).0)
  {
    hide Drop;
    if id in a.descriptions {
      Dropped(a, id);
    }
  }

  lemma {:induction false} ReleaseAllKept(a: Arena, ids: seq<Id>)
    ensures Kept(a, ReleaseAll(a, ids))
    decreases |ids|
  {
    hide Release, Kept;
    KeptSame(a);
    if ids != [] {
      var b := Release(a, ids[0]).0;
      ReleaseKept(a, ids[0]);
      ReleaseAllKept(b, ids[1..]);
      KeptThen(a, b, ReleaseAll(b, ids[1..]));
    }
  }

  lemma {:induction false} InheritKept(a: Arena, ids: seq<Id>, done: seq<Id>)
    ensures Kept(a, Inherit(a, ids, done).0)
    decreases |ids|
  {
    hide ReleaseAll, Kept, Retain;
    KeptSame(a);
    if ids != [] {
      RetainKept(a, ids[0]);
      match Retain(a, ids[0])
      case (b, Failure(_)) =>
        ReleaseAllKept(b, done);
        KeptThen(a, b, ReleaseAll(b, done));
      case (b, Success(_)) =>
        InheritKept(b, ids[1..], done + [ids[0]]);
        KeptThen(a, b, Inherit(b, ids[1..], done + [ids[0]]).0);
    }
  }

  lemma InstallKept(a: Arena, t: Table, fd: Fd, id: Id)
    ensures Kept(a, Install(a, t, fd, id).0)
  {
    hide Release, Kept, Retain;
    KeptSame(a);
    RetainKept(a, id);
    var b := Retain(a, id).0;
    if fd in t.entries {
      ReleaseKept(b, t.entries[fd]);
      KeptThen(a, b, Release(b, t.entries[fd]).0);
    }
  }

  lemma DiscardKept(a: Arena, id: Id)
    ensures Kept(a, Discard(a, id).0)
  {
    hide Release, Kept, Retain;
    KeptSame(a);
    RetainKept(a, id);
    var b := Retain(a, id).0;
    ReleaseKept(b, id);
    KeptThen(a, b, Release(b, id).0);
  }

  lemma PipeKept(a: Arena, capacity: nat)
    requires Within(a)
    ensures Kept(a, OpenPipe(a, capacity).0)
  {
    hide OpenPipe;
    FreshId(a);
    OpenPipeExactly(a, capacity);
  }

  lemma LockKept(a: Arena, id: Id, inode: nat, mode: Option<Mode>)
    ensures Kept(a, SetLock(a, id, inode, mode).0)
  {
  }

  lemma FlagKept(a: Arena)
    ensures Kept(a, a.(locksChanged := false))
  {
  }

  /** A step that moves bytes of one description. */
  predicate Streams(e: Event, id: Id) {
    (e.Reads? || e.Writes? || e.Feeds? || e.Shuts? || e.Drains?) && e.id == id
  }

  predicate StreamStep(e: Event) {
    e.Reads? || e.Writes? || e.Feeds? || e.Shuts? || e.Drains?
  }

  lemma OtherKept(w: World, e: Event)
    requires Sound(w) && !StreamStep(e)
    ensures Kept(w.arena, Step(w, e).arena)
  {
    hide Sound, Within, Release, ReleaseAll, Install, Discard, SetLock, Inherit, Named, OpenPipe, Kept, Retain,
         Allocate;
    KeptSame(w.arena);
    match e
    case Open(d) => AllocateKept(w.arena, d);
    case MakePipe(capacity) =>
      SoundWithin(w);
      PipeKept(w.arena, capacity);
    case Forget(id) => DiscardKept(w.arena, id);
    case Installs(pid, fd, id) => InstallKept(w.arena, TableOf(w, pid), fd, id);
    case Dups(pid, source, destination) =>
      var t := TableOf(w, pid);
      if source in t.entries {
        InstallKept(w.arena, t, destination, t.entries[source]);
      }
    case Closes(pid, fd) =>
      var t := TableOf(w, pid);
      if fd in t.entries {
        ReleaseKept(w.arena, t.entries[fd]);
      }
    case Flags(_, _, _) =>
    case Execs(pid) => ReleaseAllKept(w.arena, Named(Flagged(TableOf(w, pid))));
    case Forks(pid, _) => InheritKept(w.arena, Named(TableOf(w, pid).entries), []);
    case Exits(pid) => ReleaseAllKept(w.arena, Named(TableOf(w, pid).entries));
    case Holds(id) => RetainKept(w.arena, id);
    case Drops(id) => ReleaseKept(w.arena, id);
    case Locks(id, inode, mode) => LockKept(w.arena, id, inode, mode);
    case TakesChanges => FlagKept(w.arena);
  }

  /** One description at most is replaced. */
  ghost predicate Touched(a: Arena, b: Arena, id: Id) {
    && b.nextId == a.nextId && b.descriptions.Keys == a.descriptions.Keys
    && (forall other :: other in a.descriptions && other != id ==>
          b.descriptions[other].description == a.descriptions[other].description)
  }

  lemma ReadTouches(a: Arena, id: Id, maximum: nat)
    ensures Touched(a, Read(a, id, maximum).0, id)
  {
  }

  lemma WriteTouches(a: Arena, id: Id, bytes: seq<Byte>)
    ensures Touched(a, Write(a, id, bytes).0, id)
  {
  }

  lemma HostTouches(a: Arena, id: Id, bytes: seq<Byte>)
    ensures Touched(a, AppendInput(a, id, bytes).0, id)
    ensures Touched(a, CloseInput(a, id).0, id)
    ensures Touched(a, DrainCapture(a, id).0, id)
  {
  }

  /** Streaming touches one description and no identities. */
  lemma StreamKeeps(w: World, e: Event)
    requires StreamStep(e)
    ensures Touched(w.arena, Step(w, e).arena, e.id)
  {
    hide Read, Write, AppendInput, CloseInput, DrainCapture, Touched;
    match e
    case Reads(id, maximum) => ReadTouches(w.arena, id, maximum);
    case Writes(id, bytes) => WriteTouches(w.arena, id, bytes);
    case Feeds(id, bytes) => HostTouches(w.arena, id, bytes);
    case Shuts(id) => HostTouches(w.arena, id, []);
    case Drains(id) => HostTouches(w.arena, id, []);
  }

  /** A description that is there before and behind a step is the same one, and only a step that streams
      through it changes what it holds. */
  lemma SameDescription(w: World, e: Event, id: Id)
    requires Sound(w) && id < w.arena.nextId && id in Step(w, e).arena.descriptions
    ensures id in w.arena.descriptions && id < Step(w, e).arena.nextId
    ensures !Streams(e, id) ==>
              Step(w, e).arena.descriptions[id].description == w.arena.descriptions[id].description
  {
    hide Sound, Step;
    if StreamStep(e) {
      StreamKeeps(w, e);
    } else {
      OtherKept(w, e);
    }
  }

  lemma IdsGrow(w: World, e: Event)
    requires Sound(w)
    ensures Step(w, e).arena.nextId >= w.arena.nextId
  {
    hide Sound, Step;
    if StreamStep(e) {
      StreamKeeps(w, e);
    } else {
      OtherKept(w, e);
    }
  }

  /** A description that is there behind a run was there all along. */
  lemma {:induction false} LivedAlong(w: World, events: seq<Event>, id: Id)
    requires Sound(w) && id < w.arena.nextId && id in Run(w, events).arena.descriptions
    ensures id in w.arena.descriptions
    decreases |events|
  {
    hide Sound, Step;
    if events != [] {
      StepSound(w, events[0]);
      IdsGrow(w, events[0]);
      LivedAlong(Step(w, events[0]), events[1..], id);
      SameDescription(w, events[0], id);
    }
  }

  // ----- Captured output -----

  /** The bytes of a write to a capture that was accepted. */
  function WrittenBy(w: World, e: Event, id: Id): seq<Byte> {
    if e.Writes? && e.id == id && Write(w.arena, id, e.bytes).1.Success? then e.bytes else []
  }

  /** The bytes a step hands to the host. */
  function DrainedBy(w: World, e: Event, id: Id): seq<Byte> {
    if e == Drains(id) && DrainCapture(w.arena, id).1.Success? then DrainCapture(w.arena, id).1.value else []
  }

  function Written(w: World, events: seq<Event>, id: Id): seq<Byte>
    decreases |events|
  {
    if events == [] then [] else WrittenBy(w, events[0], id) + Written(Step(w, events[0]), events[1..], id)
  }

  function Drained(w: World, events: seq<Event>, id: Id): seq<Byte>
    decreases |events|
  {
    if events == [] then [] else DrainedBy(w, events[0], id) + Drained(Step(w, events[0]), events[1..], id)
  }

  predicate CaptureAt(a: Arena, id: Id) {
    id in a.descriptions && a.descriptions[id].description.Capture? &&
    a.descriptions[id].description.delivered <= |a.descriptions[id].description.bytes|
  }

  function Captured(a: Arena, id: Id): seq<Byte>
    requires CaptureAt(a, id)
  {
    a.descriptions[id].description.bytes
  }

  /** The bytes of a capture that the host has not taken yet. */
  function Untaken(a: Arena, id: Id): seq<Byte>
    requires CaptureAt(a, id)
  {
    Captured(a, id)[a.descriptions[id].description.delivered..]
  }

  /** The arena behind a step through a capture: `put` was accepted and `taken` handed out. */
  ghost predicate CaptureMoves(a: Arena, b: Arena, id: Id, put: seq<Byte>, taken: seq<Byte>)
    requires CaptureAt(a, id)
  {
    && CaptureAt(b, id) && Captured(b, id) == Captured(a, id) + put && taken + Untaken(b, id) == Untaken(a, id) + put
    && (|Captured(a, id)| <= MAX_CAPTURE ==> |Captured(b, id)| <= MAX_CAPTURE)
  }

  lemma CaptureWrites(a: Arena, id: Id, bytes: seq<Byte>)
    requires CaptureAt(a, id)
    ensures CaptureMoves(a, Write(a, id, bytes).0, id, if Write(a, id, bytes).1.Success? then bytes else [], [])
  {
    var d := a.descriptions[id].description;
    assert (d.bytes + bytes)[d.delivered..] == d.bytes[d.delivered..] + bytes;
  }

  lemma CaptureDrains(a: Arena, id: Id)
    requires CaptureAt(a, id)
    ensures DrainCapture(a, id).1.Success?
    ensures CaptureMoves(a, DrainCapture(a, id).0, id, [], DrainCapture(a, id).1.value)
  {
  }

  lemma CaptureRefuses(a: Arena, id: Id, maximum: nat, bytes: seq<Byte>)
    requires CaptureAt(a, id)
    ensures Read(a, id, maximum).0 == a && AppendInput(a, id, bytes).0 == a && CloseInput(a, id).0 == a
  {
  }

  lemma CaptureStays(a: Arena, b: Arena, id: Id)
    requires CaptureAt(a, id) && id in b.descriptions
    requires b.descriptions[id].description == a.descriptions[id].description
    ensures CaptureMoves(a, b, id, [], [])
  {
  }

  lemma CaptureStep(w: World, e: Event, id: Id)
    requires Sound(w) && id < w.arena.nextId && CaptureAt(w.arena, id) && id in Step(w, e).arena.descriptions
    ensures CaptureMoves(w.arena, Step(w, e).arena, id, WrittenBy(w, e, id), DrainedBy(w, e, id))
  {
    hide Sound, Read, Write, AppendInput, CloseInput, DrainCapture, CaptureMoves, CaptureAt;
    if !Streams(e, id) {
      hide Step;
      SameDescription(w, e, id);
      CaptureStays(w.arena, Step(w, e).arena, id);
    } else if e.Writes? {
      CaptureWrites(w.arena, id, e.bytes);
    } else if e.Drains? {
      CaptureDrains(w.arena, id);
    } else {
      CaptureRefuses(w.arena, id, if e.Reads? then e.maximum else 0, if e.Feeds? then e.bytes else []);
      CaptureStays(w.arena, w.arena, id);
    }
  }

  /** Over every run that a capture lives through, it holds what it held followed by every accepted write in
      order, and what the host took followed by what it has not taken yet is what it had not taken followed
      by those writes: each byte reaches the host once, in order. It never exceeds its limit. */
  lemma {:induction false} CaptureKeepsOrder(w: World, events: seq<Event>, id: Id)
    requires Sound(w) && id < w.arena.nextId && CaptureAt(w.arena, id) && id in Run(w, events).arena.descriptions
    ensures var b := Run(w, events).arena;
            && CaptureAt(b, id) && Captured(b, id) == Captured(w.arena, id) + Written(w, events, id)
            && Drained(w, events, id) + Untaken(b, id) == Untaken(w.arena, id) + Written(w, events, id)
            && (|Captured(w.arena, id)| <= MAX_CAPTURE ==> |Captured(b, id)| <= MAX_CAPTURE)
    decreases |events|
  {
    hide Sound, Step, WrittenBy, DrainedBy, CaptureAt;
    if events != [] {
      var v, rest := Step(w, events[0]), events[1..];
      StepSound(w, events[0]);
      IdsGrow(w, events[0]);
      LivedAlong(v, rest, id);
      CaptureStep(w, events[0], id);
      CaptureKeepsOrder(v, rest, id);
      var taken, put := DrainedBy(w, events[0], id), WrittenBy(w, events[0], id);
      var later, more := Drained(v, rest, id), Written(v, rest, id);
      Joined(Captured(w.arena, id), put, more);
      Chained(taken, Untaken(v.arena, id), Untaken(w.arena, id), put, later, Untaken(Run(w, events).arena, id), more);
    }
  }

  lemma Joined(a: seq<Byte>, b: seq<Byte>, c: seq<Byte>)
    ensures a + (b + c) == a + b + c
  {
  }

  /** Two stretches of a stream one after the other. */
  lemma Chained(out: seq<Byte>, middle: seq<Byte>, held: seq<Byte>, put: seq<Byte>, later: seq<Byte>, left: seq<Byte>,
                more: seq<Byte>)
    requires out + middle == held + put && later + left == middle + more
    ensures out + later + left == held + (put + more)
  {
    assert out + later + left == out + (later + left);
    assert out + (middle + more) == (out + middle) + more;
    assert held + put + more == held + (put + more);
  }

  // ----- Input -----

  /** The bytes a read hands out. */
  function HandedBy(w: World, e: Event, id: Id): seq<Byte> {
    if e.Reads? && e.id == id && Read(w.arena, id, e.maximum).1.Success? &&
       Read(w.arena, id, e.maximum).1.value.Ready? then
      Read(w.arena, id, e.maximum).1.value.value
    else []
  }

  /** The bytes the host adds. */
  function FedBy(w: World, e: Event, id: Id): seq<Byte> {
    if e.Feeds? && e.id == id && AppendInput(w.arena, id, e.bytes).1.Success? then e.bytes else []
  }

  function Handed(w: World, events: seq<Event>, id: Id): seq<Byte>
    decreases |events|
  {
    if events == [] then [] else HandedBy(w, events[0], id) + Handed(Step(w, events[0]), events[1..], id)
  }

  function Fed(w: World, events: seq<Event>, id: Id): seq<Byte>
    decreases |events|
  {
    if events == [] then [] else FedBy(w, events[0], id) + Fed(Step(w, events[0]), events[1..], id)
  }

  predicate InputAt(a: Arena, id: Id) {
    id in a.descriptions && a.descriptions[id].description.Input? &&
    a.descriptions[id].description.cursor <= |a.descriptions[id].description.bytes|
  }

  /** What an input stream still has to hand out. */
  function Unread(a: Arena, id: Id): seq<Byte>
    requires InputAt(a, id)
  {
    a.descriptions[id].description.bytes[a.descriptions[id].description.cursor..]
  }

  predicate Closed(a: Arena, id: Id)
    requires InputAt(a, id)
  {
    a.descriptions[id].description.closed
  }

  /** The arena behind a step through an input stream: `fed` was added, `handed` was read. */
  ghost predicate InputMoves(a: Arena, b: Arena, id: Id, fed: seq<Byte>, handed: seq<Byte>, shut: bool)
    requires InputAt(a, id)
  {
    && InputAt(b, id) && handed + Unread(b, id) == Unread(a, id) + fed
    && (Closed(b, id) <==> Closed(a, id) || shut) && (Closed(a, id) ==> fed == [])
  }

  lemma InputReads(a: Arena, id: Id, maximum: nat)
    requires InputAt(a, id)
    ensures var r := Read(a, id, maximum).1;
            r.Success? && InputMoves(a, Read(a, id, maximum).0, id, [], if r.value.Ready? then r.value.value else [],
                                     false)
  {
    var d := a.descriptions[id].description;
    if d.cursor < |d.bytes| {
      var end := Min(d.cursor + maximum, |d.bytes|);
      assert d.bytes[d.cursor..] == d.bytes[d.cursor..end] + d.bytes[end..];
    }
  }

  lemma InputTakes(a: Arena, id: Id, bytes: seq<Byte>)
    requires InputAt(a, id)
    ensures InputMoves(a, AppendInput(a, id, bytes).0, id, if AppendInput(a, id, bytes).1.Success? then bytes else [],
                       [], false)
  {
    var d := a.descriptions[id].description;
    assert (d.bytes + bytes)[d.cursor..] == d.bytes[d.cursor..] + bytes;
  }

  lemma InputShuts(a: Arena, id: Id)
    requires InputAt(a, id)
    ensures InputMoves(a, CloseInput(a, id).0, id, [], [], true)
  {
  }

  lemma InputRefuses(a: Arena, id: Id, bytes: seq<Byte>)
    requires InputAt(a, id)
    ensures Write(a, id, bytes).0 == a && DrainCapture(a, id).0 == a
  {
  }

  lemma InputStays(a: Arena, b: Arena, id: Id)
    requires InputAt(a, id) && id in b.descriptions && b.descriptions[id].description == a.descriptions[id].description
    ensures InputMoves(a, b, id, [], [], false)
  {
  }

  lemma InputStep(w: World, e: Event, id: Id)
    requires Sound(w) && id < w.arena.nextId && InputAt(w.arena, id) && id in Step(w, e).arena.descriptions
    ensures InputMoves(w.arena, Step(w, e).arena, id, FedBy(w, e, id), HandedBy(w, e, id), e == Shuts(id))
  {
    hide Sound, Read, Write, AppendInput, CloseInput, DrainCapture, InputMoves, InputAt;
    if !Streams(e, id) {
      hide Step;
      SameDescription(w, e, id);
      InputStays(w.arena, Step(w, e).arena, id);
    } else if e.Reads? {
      InputReads(w.arena, id, e.maximum);
    } else if e.Feeds? {
      InputTakes(w.arena, id, e.bytes);
    } else if e.Shuts? {
      InputShuts(w.arena, id);
    } else {
      InputRefuses(w.arena, id, if e.Writes? then e.bytes else []);
      InputStays(w.arena, w.arena, id);
    }
  }

  /** Over every run that an input stream lives through, the bytes handed out followed by the unread rest are
      the bytes that were unread followed by the bytes fed, in order; once closed it stays closed and takes
      nothing more. */
  lemma {:induction false} InputKeepsOrder(w: World, events: seq<Event>, id: Id)
    requires Sound(w) && id < w.arena.nextId && InputAt(w.arena, id) && id in Run(w, events).arena.descriptions
    ensures var b := Run(w, events).arena;
            && InputAt(b, id) && Handed(w, events, id) + Unread(b, id) == Unread(w.arena, id) + Fed(w, events, id)
            && (Closed(b, id) <==> Closed(w.arena, id) || Shuts(id) in events)
            && (Closed(w.arena, id) ==> Fed(w, events, id) == [])
    decreases |events|
  {
    hide Sound, Step, HandedBy, FedBy, InputAt;
    if events != [] {
      var v, rest := Step(w, events[0]), events[1..];
      StepSound(w, events[0]);
      IdsGrow(w, events[0]);
      LivedAlong(v, rest, id);
      InputStep(w, events[0], id);
      InputKeepsOrder(v, rest, id);
      Chained(HandedBy(w, events[0], id), Unread(v.arena, id), Unread(w.arena, id), FedBy(w, events[0], id),
              Handed(v, rest, id), Unread(Run(w, events).arena, id), Fed(v, rest, id));
      assert Shuts(id) in events <==> events[0] == Shuts(id) || Shuts(id) in rest;
    }
  }

  /** A read of an input stream hands out as much as was asked for and is there; with nothing there it ends a
      closed stream and blocks on an open one. */
  lemma InputReadExactly(a: Arena, id: Id, maximum: nat)
    requires InputAt(a, id)
    ensures Read(a, id, maximum).1 ==
            if Unread(a, id) == [] then Success(if Closed(a, id) then Ready([]) else Blocked(InputReadable(id)))
            else Success(Ready(Unread(a, id)[..Min(maximum, |Unread(a, id)|)]))
  {
    var d := a.descriptions[id].description;
    if d.cursor < |d.bytes| {
      var end := Min(d.cursor + maximum, |d.bytes|);
      assert d.bytes[d.cursor..end] == d.bytes[d.cursor..][..end - d.cursor];
    }
  }

  /** A capture takes a whole write exactly when it stays within its limit. */
  lemma CaptureWriteExactly(a: Arena, id: Id, bytes: seq<Byte>)
    requires CaptureAt(a, id)
    ensures Write(a, id, bytes).1 ==
            if |Captured(a, id)| + |bytes| <= MAX_CAPTURE then Success(Ready(|bytes|)) else Failure(OutputLimit)
  {
  }

  /** Devices move whatever is asked, a read of the zero device as many zero bytes; what a description is not open
      for is refused, and nothing changes. */
  lemma AccessExactly(a: Arena, id: Id, maximum: nat, bytes: seq<Byte>)
    requires id in a.descriptions
    ensures var d := a.descriptions[id].description;
            var ((b, r), (c, w)) := (Read(a, id, maximum), Write(a, id, bytes));
            && (d.Null? || d.Zero? ==>
                  && b == a && c == a
                  && (if !d.readable then r == Failure(WrongAccess)
                      else r.Success? && r.value.Ready? && |r.value.value| == (if d.Zero? then maximum else 0) &&
                           forall x :: x in r.value.value ==> x == 0)
                  && w == if d.writable then Success(Ready(|bytes|)) else Failure(WrongAccess))
            && (d.Capture? || d.PipeWriter? || d.Directory? || d.File? ==> b == a && r == Failure(WrongAccess))
            && (d.Input? || d.PipeReader? || d.Directory? || d.File? ==> c == a && w == Failure(WrongAccess))
  {
  }
}
