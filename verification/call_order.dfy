// The order of things in the machine: descriptor calls change the descriptors exactly as the descriptor events
// do, a call blocks exactly when nothing can be moved, and runnable tasks are served first come, first served.

module CallOrder {
  import opened Basics
  import opened Descriptors
  import opened DescriptorRuns
  import S = Scheduling
  import opened Wakeups

  // ----- Calls are descriptor events -----

  /** The descriptor events of a call. */
  function EventsOf(x: System, call: Call): seq<Event> {
    match call
    case FeedInput(id, bytes) => [Feeds(id, bytes)]
    case CloseInput(id) => [Shuts(id)]
    case _ => if x.sched.current.None? then [] else EventsBy(x, x.sched.current.value, call)
  }

  function EventsBy(x: System, pid: Pid, call: Call): seq<Event> {
    var t := TableOf(x.world, pid);
    match call
    case ReadFd(fd, maximum) => if fd in t.entries then [Reads(t.entries[fd], maximum)] else []
    case WriteFd(fd, bytes) => if fd in t.entries then [Writes(t.entries[fd], bytes)] else []
    case CloseFd(fd) => if fd in t.entries then [Closes(pid, fd)] else []
    case DupFd(source, destination) => [Dups(pid, source, destination)]
    case NewPipe(reader, writer) =>
      if !TwoFree(t, reader, writer) then []
      else
        var ends := OpenPipe(x.world.arena, PIPE_CAPACITY).1;
        if ends.Failure? then [MakePipe(PIPE_CAPACITY)]
        else [MakePipe(PIPE_CAPACITY), Installs(pid, reader, ends.value.0), Installs(pid, writer, ends.value.1)]
    case ExecImage => [Execs(pid)]
    case ExitTask(_) => [Exits(pid)]
    case ForkTask(child) =>
      if child in x.world.tables || S.Spawn(x.sched, child).1 then [Forks(pid, child)]
      else [Forks(pid, child), Exits(child)]
    case _ => []
  }

  lemma RunNone(w: World)
    ensures Run(w, []) == w
  {
  }

  lemma RunOne(w: World, e: Event)
    ensures Run(w, [e]) == Step(w, e)
  {
    assert [e][1..] == [];
    RunNone(Step(w, e));
  }

  lemma RunTwo(w: World, d: Event, e: Event)
    ensures Run(w, [d, e]) == Step(Step(w, d), e)
  {
    hide Step;
    assert [d, e][1..] == [e];
    RunOne(Step(w, d), e);
  }

  lemma {:induction false} RunBoth(w: World, first: seq<Event>, second: seq<Event>)
    ensures Run(w, first + second) == Run(Run(w, first), second)
    decreases |first|
  {
    hide Step;
    if first == [] {
      assert first + second == second;
    } else {
      assert (first + second)[1..] == first[1..] + second;
      RunBoth(Step(w, first[0]), first[1..], second);
    }
  }

  lemma PipeEvents(x: System, pid: Pid, reader: Fd, writer: Fd)
    ensures WithPipe(x.world, pid, reader, writer) == Run(x.world, EventsBy(x, pid, NewPipe(reader, writer)))
  {
    hide Step, Run;
    var w := x.world;
    RunNone(w);
    RunOne(w, MakePipe(PIPE_CAPACITY));
    var ends := OpenPipe(w.arena, PIPE_CAPACITY).1;
    if ends.Success? {
      var (r, s) := ends.value;
      RunTwo(Step(w, MakePipe(PIPE_CAPACITY)), Installs(pid, reader, r), Installs(pid, writer, s));
      RunBoth(w, [MakePipe(PIPE_CAPACITY)], [Installs(pid, reader, r), Installs(pid, writer, s)]);
      assert [MakePipe(PIPE_CAPACITY)] + [Installs(pid, reader, r), Installs(pid, writer, s)] ==
             [MakePipe(PIPE_CAPACITY), Installs(pid, reader, r), Installs(pid, writer, s)];
    }
  }

  lemma ForkEvents(x: System, pid: Pid, child: Pid)
    ensures Forked(x, pid, child).world == Run(x.world, EventsBy(x, pid, ForkTask(child)))
  {
    hide Run, Fork, CloseAll;
    var w := x.world;
    RunOne(w, Forks(pid, child));
    RunTwo(w, Forks(pid, child), Exits(child));
    if child !in w.tables {
      ForkKeepsTable(w.arena, TableOf(w, pid));
      var v := Step(w, Forks(pid, child));
      assert w.tables[child := TableOf(w, pid)] - {child} == w.tables;
      if child !in v.tables {
        EmptyExit(v, child);
      }
    }
  }

  /** What a child inherits is the parent's table. */
  lemma ForkKeepsTable(a: Arena, t: Table)
    ensures Fork(a, t).1.Success? ==> Fork(a, t).1.value == t
  {
    hide Inherit;
  }

  lemma EmptyExit(w: World, pid: Pid)
    requires pid !in w.tables
    ensures Step(w, Exits(pid)) == w
  {
    assert w.tables - {pid} == w.tables;
    assert Named(EmptyTable.entries) == [];
  }

  /** The running task's calls do to the descriptors what their events do. */
  lemma CallByIsEvents(x: System, pid: Pid, call: Call)
    ensures DoAs(x, pid, call).world == Run(x.world, EventsBy(x, pid, call)) || call.FeedInput? || call.CloseInput?
  {
    hide Run, WithPipe, Forked, Closing, Read1, Write1, S.Block, S.Yield, PollWaits;
    var w, t := x.world, TableOf(x.world, pid);
    RunNone(w);
    match call
    case ReadFd(fd, maximum) =>
      if fd in t.entries {
        RunOne(w, Reads(t.entries[fd], maximum));
        ReadEvent(x, t.entries[fd], maximum);
      }
    case WriteFd(fd, bytes) =>
      if fd in t.entries {
        RunOne(w, Writes(t.entries[fd], bytes));
        WriteEvent(x, t.entries[fd], bytes);
      }
    case CloseFd(fd) => RunOne(w, Closes(pid, fd)); ClosingWorld(x, Closes(pid, fd));
    case DupFd(source, destination) =>
      RunOne(w, Dups(pid, source, destination));
      ClosingWorld(x, Dups(pid, source, destination));
    case NewPipe(reader, writer) => PipeEvents(x, pid, reader, writer);
    case ExecImage => RunOne(w, Execs(pid)); ClosingWorld(x, Execs(pid));
    case ExitTask(_) => RunOne(w, Exits(pid)); ClosingWorld(x, Exits(pid));
    case ForkTask(child) => ForkEvents(x, pid, child);
    case _ =>
  }

  lemma ClosingWorld(x: System, e: Event)
    ensures forall ids :: Closing(x, e, ids).world == Step(x.world, e)
  {
  }

  lemma ReadEvent(x: System, id: Id, maximum: nat)
    ensures Read1(x, id, maximum).world == Step(x.world, Reads(id, maximum))
  {
    hide S.WakeWaiters, S.Block;
  }

  lemma WriteEvent(x: System, id: Id, bytes: seq<Byte>)
    ensures Write1(x, id, bytes).world == Step(x.world, Writes(id, bytes))
  {
    hide S.WakeWaiters, S.Block;
  }

  /** A call does to the descriptors exactly what its events do. */
  lemma CallIsEvents(x: System, call: Call)
    ensures Do(x, call).world == Run(x.world, EventsOf(x, call))
  {
    hide Run, DoAs, EventsBy, Feed, ShutInput;
    RunNone(x.world);
    if call.FeedInput? {
      RunOne(x.world, Feeds(call.id, call.bytes));
      FeedEvent(x, call.id, call.bytes);
    } else if call.CloseInput? {
      RunOne(x.world, Shuts(call.id));
      FeedEvent(x, call.id, []);
    } else if x.sched.current.Some? {
      CallByIsEvents(x, x.sched.current.value, call);
      NoEvents(x, x.sched.current.value, call);
    }
  }

  /** The scheduler's own calls touch no descriptor. */
  lemma NoEvents(x: System, pid: Pid, call: Call)
    ensures IsScheduling(call) ==> EventsBy(x, pid, call) == []
  {
  }

  lemma FeedEvent(x: System, id: Id, bytes: seq<Byte>)
    ensures Feed(x, id, bytes).world == Step(x.world, Feeds(id, bytes))
    ensures ShutInput(x, id).world == Step(x.world, Shuts(id))
  {
    hide S.WakeWaiters;
  }

  /** The descriptor events of a run of calls. */
  function AllEvents(x: System, calls: seq<Call>): seq<Event>
    decreases |calls|
  {
    if calls == [] then [] else EventsOf(x, calls[0]) + AllEvents(Do(x, calls[0]), calls[1..])
  }

  /** Every interleaving of calls is a run of descriptor events, so what every run of events keeps (counts,
      locks, the order of streams) holds of the machine however its tasks are scheduled. */
  lemma {:induction false} CallsAreEvents(x: System, calls: seq<Call>)
    ensures RunCalls(x, calls).world == Run(x.world, AllEvents(x, calls))
    decreases |calls|
  {
    hide Do, EventsOf, Run;
    if calls == [] {
      RunNone(x.world);
    } else {
      CallIsEvents(x, calls[0]);
      CallsAreEvents(Do(x, calls[0]), calls[1..]);
      RunBoth(x.world, EventsOf(x, calls[0]), AllEvents(Do(x, calls[0]), calls[1..]));
    }
  }
}
