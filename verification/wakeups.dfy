// The machine's descriptor calls together with its scheduler: whatever the interleaving, no task
// stays blocked on a descriptor condition that holds.

module Wakeups {
  import opened Basics
  import opened Descriptors
  import opened DescriptorRuns
  import opened DescriptorFork
  import S = Scheduling

  datatype System = System(world: World, sched: S.Scheduler)

  /** What the running task, the host or the scheduler does next. */
  datatype Call =
    | ReadFd(fd: Fd, maximum: nat)
    | WriteFd(fd: Fd, bytes: seq<Byte>)
    | PollFds(polls: seq<(Fd, bool)>)
    | CloseFd(fd: Fd)
    | DupFd(source: Fd, destination: Fd)
    | NewPipe(reader: Fd, writer: Fd)
    | ExecImage
    | ExitTask(status: int)
    | ForkTask(child: Pid)
    | FeedInput(id: Id, bytes: seq<Byte>)
    | CloseInput(id: Id)
    | WaitElsewhere(key: nat)
    | YieldTask
    | DispatchTask
    | StopTask(pid: Pid)
    | ResumeTask(pid: Pid)
    | WakeTask(pid: Pid)
    | ReapTask(pid: Pid)
    | ParkTask(pid: Pid, key: nat)
    | SelectTask(pid: Pid)

  /** The calls that only the scheduler and the host make. */
  predicate IsScheduling(call: Call) {
    || call.DispatchTask? || call.StopTask? || call.ResumeTask? || call.WakeTask? || call.ReapTask? || call.ParkTask?
    || call.SelectTask?
  }

  // ----- Conditions -----

  predicate Met(a: Arena, wait: Wait) {
    match wait
    case InputReadable(id) => InputIsReadable(a, id)
    case PipeReadable(p) => PipeIsReadable(a, p)
    case PipeWritable(p) => PipeIsWritable(a, p)
  }

  /** The condition names something that has existed. */
  predicate Known(a: Arena, wait: Wait) {
    match wait
    case InputReadable(id) => id < a.nextId
    case PipeReadable(p) => p < a.nextPipe
    case PipeWritable(p) => p < a.nextPipe
  }

  /** The condition that can begin to hold when a pipe end goes away. */
  function EndWait(d: Description): Option<Wait> {
    match d
    case PipeReader(p) => Some(PipeWritable(p))
    case PipeWriter(p) => Some(PipeReadable(p))
    case _ => None
  }

  /** The conditions of the pipe ends among some descriptions. */
  function EndWaits(a: Arena, ids: seq<Id>): seq<Wait> {
    if ids == [] then []
    else
      var rest := EndWaits(a, ids[1..]);
      if ids[0] in a.descriptions && EndWait(a.descriptions[ids[0]].description).Some?
      then [EndWait(a.descriptions[ids[0]].description).value] + rest else rest
  }

  function WakeAll(s: S.Scheduler, waits: seq<Wait>): S.Scheduler
    decreases |waits|
  {
    if waits == [] then s else WakeAll(S.WakeWaiters(s, waits[0]), waits[1..])
  }

  // ----- Calls -----

  function Read1(x: System, id: Id, maximum: nat): System {
    match Read(x.world.arena, id, maximum)
    case (_, Failure(_)) => x
    case (_, Success(Blocked(wait))) => x.(sched := S.Block(x.sched, S.Io(wait)))
    case (a, Success(Ready(_))) =>
      var d := x.world.arena.descriptions[id].description;
      System(x.world.(arena := a), if d.PipeReader? then S.WakeWaiters(x.sched, PipeWritable(d.pipe)) else x.sched)
  }

  function Write1(x: System, id: Id, bytes: seq<Byte>): System {
    match Write(x.world.arena, id, bytes)
    case (_, Failure(_)) => x
    case (_, Success(Blocked(wait))) => x.(sched := S.Block(x.sched, S.Io(wait)))
    case (a, Success(Ready(_))) =>
      var d := x.world.arena.descriptions[id].description;
      System(x.world.(arena := a), if d.PipeWriter? then S.WakeWaiters(x.sched, PipeReadable(d.pipe)) else x.sched)
  }

  const MAX_POLLS: nat := 64

  /** A poll names at least one descriptor and not too many. */
  predicate CanPoll(polls: seq<(Fd, bool)>) {
    0 < |polls| <= MAX_POLLS
  }

  /** The conditions of a poll none of whose descriptors is ready; nothing when one is ready or bad. */
  function PollWaits(a: Arena, t: Table, polls: seq<(Fd, bool)>): Option<seq<S.Reason>> {
    if polls == [] then Some([])
    else if polls[0].0 !in t.entries then None
    else
      match (ReadyFor(a, t.entries[polls[0].0], polls[0].1), PollWaits(a, t, polls[1..]))
      case (Success(Blocked(wait)), Some(rest)) => Some([S.Io(wait)] + rest)
      case _ => None
  }

  /** The flagged or the whole table closed, and the waiters of its pipe ends woken. */
  function Closing(x: System, e: Event, ids: seq<Id>): System {
    System(Step(x.world, e), WakeAll(x.sched, EndWaits(x.world.arena, ids)))
  }

  function Do(x: System, call: Call): System {
    match call
    case FeedInput(id, bytes) => Feed(x, id, bytes)
    case CloseInput(id) => ShutInput(x, id)
    case DispatchTask => x.(sched := S.Dispatch(x.sched))
    case StopTask(pid) => x.(sched := S.Stop(x.sched, pid))
    case ResumeTask(pid) => x.(sched := S.Resume(x.sched, pid))
    case WakeTask(pid) => x.(sched := S.Wake(x.sched, pid))
    case ReapTask(pid) => x.(sched := S.Reap(x.sched, pid))
    case ParkTask(pid, key) => x.(sched := S.Park(x.sched, pid, S.Elsewhere(key)))
    case SelectTask(pid) => x.(sched := S.Select(x.sched, pid))
    case _ => if x.sched.current.None? then x else DoAs(x, x.sched.current.value, call)
  }

  function DoAs(x: System, pid: Pid, call: Call): System {
    var t := TableOf(x.world, pid);
    match call
    case ReadFd(fd, maximum) => if fd in t.entries then Read1(x, t.entries[fd], maximum) else x
    case WriteFd(fd, bytes) => if fd in t.entries then Write1(x, t.entries[fd], bytes) else x
    case PollFds(polls) =>
      var waits := PollWaits(x.world.arena, t, polls);
      if CanPoll(polls) && waits.Some? then x.(sched := S.Block(x.sched, S.AnyOf(waits.value))) else x
    case CloseFd(fd) => if fd in t.entries then Closing(x, Closes(pid, fd), [t.entries[fd]]) else x
    case DupFd(source, destination) =>
      if Duplicate(x.world.arena, t, source, destination).2.Failure? then
        x.(world := Step(x.world, Dups(pid, source, destination)))
      else Closing(x, Dups(pid, source, destination), if destination in t.entries then [t.entries[destination]] else [])
    case NewPipe(reader, writer) => x.(world := WithPipe(x.world, pid, reader, writer))
    case ExecImage => Closing(x, Execs(pid), Named(Flagged(t)))
    case ExitTask(status) => var y := Closing(x, Exits(pid), Named(t.entries)); y.(sched := S.Exit(y.sched, status))
    case ForkTask(child) => Forked(x, pid, child)
    case WaitElsewhere(key) => x.(sched := S.Block(x.sched, S.Elsewhere(key)))
    case _ => x.(sched := S.Yield(x.sched))
  }

  /** Two different descriptor numbers that are free in a table with room for both. */
  predicate TwoFree(t: Table, x: Fd, y: Fd) {
    x !in t.entries && y !in t.entries && x != y && x >= 0 && y >= 0 && |t.entries| <= MAX_FDS - 2
  }

  /** A pipe whose ends take two free descriptor numbers. */
  function WithPipe(w: World, pid: Pid, reader: Fd, writer: Fd): World {
    var t := TableOf(w, pid);
    if !TwoFree(t, reader, writer) then w
    else
      match OpenPipe(w.arena, PIPE_CAPACITY).1
      case Failure(_) => Step(w, MakePipe(PIPE_CAPACITY))
      case Success((r, s)) => Step(Step(Step(w, MakePipe(PIPE_CAPACITY)), Installs(pid, reader, r)),
                                   Installs(pid, writer, s))
  }

  /** A child with a copy of the table; the copy is closed again when the scheduler refuses the child. */
  function Forked(x: System, pid: Pid, child: Pid): System {
    var t := TableOf(x.world, pid);
    if child in x.world.tables then x
    else
      match Fork(x.world.arena, t)
      case (a, Failure(_)) => x.(world := x.world.(arena := a))
      case (a, Success(_)) =>
        var (s, accepted) := S.Spawn(x.sched, child);
        if accepted then System(WithTable(x.world, child, a, t), s)
        else x.(world := x.world.(arena := CloseAll(a, t).0))
  }

  /** The host adds bytes to an input stream and wakes who waits for it. */
  function Feed(x: System, id: Id, bytes: seq<Byte>): System {
    match AppendInput(x.world.arena, id, bytes)
    case (_, Failure(_)) => x
    case (a, Success(_)) => System(x.world.(arena := a), S.WakeWaiters(x.sched, InputReadable(id)))
  }

  function ShutInput(x: System, id: Id): System {
    match Descriptors.CloseInput(x.world.arena, id)
    case (_, Failure(_)) => x
    case (a, Success(_)) => System(x.world.(arena := a), S.WakeWaiters(x.sched, InputReadable(id)))
  }

  function RunCalls(x: System, calls: seq<Call>): System
    decreases |calls|
  {
    if calls == [] then x else RunCalls(Do(x, calls[0]), calls[1..])
  }

  // ----- The property -----

  ghost predicate NoneStranded(s: S.Scheduler, a: Arena) {
    forall pid, wait :: S.WaitsFor(s, pid, wait) ==> Known(a, wait) && !Met(a, wait)
  }

  /** The descriptors are sound, the queues agree with the task states, and no task waits for a
      condition that holds. */
  ghost predicate Awake(x: System) {
    Sound(x.world) && S.Ordered(x.sched) && NoneStranded(x.sched, x.world.arena)
  }

  /** Conditions that begin to hold between two arenas are among the given ones. */
  ghost predicate Covers(a: Arena, b: Arena, waits: seq<Wait>) {
    forall wait :: Known(a, wait) ==> Known(b, wait) && (Met(b, wait) && !Met(a, wait) ==> wait in waits)
  }

  lemma CoversNone(a: Arena)
    ensures Covers(a, a, [])
  {
  }

  lemma CoversMore(a: Arena, b: Arena, waits: seq<Wait>, more: seq<Wait>)
    requires Covers(a, b, waits) && forall wait :: wait in waits ==> wait in more
    ensures Covers(a, b, more)
  {
  }

  lemma CoversBoth(a: Arena, b: Arena, c: Arena, first: seq<Wait>, second: seq<Wait>)
    requires Covers(a, b, first) && Covers(b, c, second)
    ensures Covers(a, c, first + second)
  {
  }

  lemma {:induction false} WakeAllLeavesNone(s: S.Scheduler, waits: seq<Wait>)
    requires S.Ordered(s)
    ensures var t := WakeAll(s, waits);
            && S.Ordered(t)
            && (forall pid, wait :: S.WaitsFor(t, pid, wait) ==> S.WaitsFor(s, pid, wait) && wait !in waits)
    decreases |waits|
  {
    hide S.Ordered, S.Accepts, S.WakeWaiters;
    if waits != [] {
      var s1 := S.WakeWaiters(s, waits[0]);
      S.WakeWaitersExactly(s, waits[0]);
      WakeAllLeavesNone(s1, waits[1..]);
      var t := WakeAll(s, waits);
      forall pid, wait | S.WaitsFor(t, pid, wait)
        ensures S.WaitsFor(s, pid, wait) && wait !in waits
      {
        StillWaits(s, s1, waits[0], pid, wait);
      }
    }
  }

  lemma StillWaits(s: S.Scheduler, t: S.Scheduler, woken: Wait, pid: Pid, wait: Wait)
    requires t.states.Keys == s.states.Keys && S.WaitsFor(t, pid, wait)
    requires forall p :: p in s.states && !S.WaitsFor(s, p, woken) ==> t.states[p] == s.states[p]
    requires S.WaitsFor(s, pid, woken) ==> S.ReasonOf(t.states[pid]).None?
    ensures S.WaitsFor(s, pid, wait) && wait != woken
  {
  }

  lemma WakingKeepsAwake(s: S.Scheduler, a: Arena, b: Arena, waits: seq<Wait>)
    requires S.Ordered(s) && NoneStranded(s, a) && Covers(a, b, waits)
    ensures S.Ordered(WakeAll(s, waits)) && NoneStranded(WakeAll(s, waits), b)
  {
    hide S.Ordered, S.WaitsFor, Met, Known, WakeAll;
    WakeAllLeavesNone(s, waits);
  }

  // ----- What each descriptor operation can make true -----

  /** Descriptions only disappear between two arenas. */
  ghost predicate Fewer(a: Arena, b: Arena) {
    forall id :: id in b.descriptions ==>
      id in a.descriptions && b.descriptions[id].description == a.descriptions[id].description
  }

  lemma RetainCovers(a: Arena, id: Id)
    ensures Covers(a, Retain(a, id).0, []) && Fewer(a, Retain(a, id).0)
  {
  }

  lemma ReleaseCovers(a: Arena, id: Id)
    ensures Covers(a, Release(a, id).0, EndWaits(a, [id])) && Fewer(a, Release(a, id).0)
  {
    hide Drop;
    if id in a.descriptions {
      Dropped(a, id);
      var d := a.descriptions[id].description;
      assert EndWaits(a, [id][1..]) == [];
      if IsEnd(d) {
        assert EndWaits(a, [id]) == [EndWait(d).value];
      }
    }
  }

  lemma {:induction false} EndWaitsShrink(a: Arena, b: Arena, ids: seq<Id>)
    requires Fewer(a, b)
    ensures forall wait :: wait in EndWaits(b, ids) ==> wait in EndWaits(a, ids)
  {
    if ids != [] {
      EndWaitsShrink(a, b, ids[1..]);
    }
  }

  lemma {:induction false} ReleaseAllCovers(a: Arena, ids: seq<Id>)
    ensures Covers(a, ReleaseAll(a, ids), EndWaits(a, ids)) && Fewer(a, ReleaseAll(a, ids))
    decreases |ids|
  {
    hide Release, Covers;
    CoversNone(a);
    if ids != [] {
      var b := Release(a, ids[0]).0;
      ReleaseCovers(a, ids[0]);
      ReleaseAllCovers(b, ids[1..]);
      EndWaitsShrink(a, b, ids[1..]);
      CoversBoth(a, b, ReleaseAll(a, ids), EndWaits(a, [ids[0]]), EndWaits(b, ids[1..]));
      EndWaitsFirst(a, ids);
      CoversMore(a, ReleaseAll(a, ids), EndWaits(a, [ids[0]]) + EndWaits(b, ids[1..]), EndWaits(a, ids));
    }
  }

  lemma EndWaitsFirst(a: Arena, ids: seq<Id>)
    requires ids != []
    ensures EndWaits(a, ids) == EndWaits(a, [ids[0]]) + EndWaits(a, ids[1..])
  {
    assert [ids[0]][1..] == [];
  }

  lemma InstallCovers(a: Arena, t: Table, fd: Fd, id: Id)
    ensures Covers(a, Install(a, t, fd, id).0, if fd in t.entries then EndWaits(a, [t.entries[fd]]) else [])
    ensures Install(a, t, fd, id).2.Failure? && Retain(a, id).1.Failure? ==> Install(a, t, fd, id).0 == a
  {
    hide Release, Retain, Covers, EndWaits;
    CoversNone(a);
    RetainCovers(a, id);
    var b := Retain(a, id).0;
    RetainFails(a, id);
    if fd in t.entries {
      var waits := EndWaits(a, [t.entries[fd]]);
      CoversMore(a, a, [], waits);
      ReleaseCovers(b, t.entries[fd]);
      EndWaitsShrink(a, b, [t.entries[fd]]);
      CoversBoth(a, b, Release(b, t.entries[fd]).0, [], EndWaits(b, [t.entries[fd]]));
      CoversMore(a, Release(b, t.entries[fd]).0, [] + EndWaits(b, [t.entries[fd]]), waits);
    }
  }

  lemma RetainFails(a: Arena, id: Id)
    ensures Retain(a, id).1.Failure? ==> Retain(a, id).0 == a
  {
  }

  lemma PipeCovers(a: Arena, capacity: nat)
    requires Within(a)
    ensures Covers(a, OpenPipe(a, capacity).0, [])
  {
    hide OpenPipe;
    FreshId(a);
    OpenPipeExactly(a, capacity);
    var b := OpenPipe(a, capacity).0;
    forall wait | Known(a, wait)
      ensures Known(b, wait) && (Met(b, wait) ==> Met(a, wait))
    {
    }
  }

  lemma ReadCovers(a: Arena, id: Id, maximum: nat)
    requires id in a.descriptions
    ensures Covers(a, Read(a, id, maximum).0,
                   if a.descriptions[id].description.PipeReader? then
                     [PipeWritable(a.descriptions[id].description.pipe)]
                   else [])
  {
  }

  lemma WriteCovers(a: Arena, id: Id, bytes: seq<Byte>)
    requires id in a.descriptions
    ensures Covers(a, Write(a, id, bytes).0,
                   if a.descriptions[id].description.PipeWriter? then
                     [PipeReadable(a.descriptions[id].description.pipe)]
                   else [])
  {
  }

  // ----- Scheduler moves -----

  /** No task waits for more than before. */
  ghost predicate WaitsLess(s: S.Scheduler, t: S.Scheduler) {
    forall pid :: pid in t.states && S.ReasonOf(t.states[pid]).Some? ==>
      pid in s.states && S.ReasonOf(s.states[pid]) == S.ReasonOf(t.states[pid])
  }

  lemma LessIsAwake(s: S.Scheduler, t: S.Scheduler, a: Arena)
    requires NoneStranded(s, a) && WaitsLess(s, t)
    ensures NoneStranded(t, a)
  {
    hide S.Accepts, Met, Known;
    forall pid, wait | S.WaitsFor(t, pid, wait)
      ensures Known(a, wait) && !Met(a, wait)
    {
      assert S.WaitsFor(s, pid, wait);
    }
  }

  /** The current task waits for conditions none of which holds. */
  lemma BlockAwake(s: S.Scheduler, a: Arena, reason: S.Reason)
    requires S.Ordered(s) && NoneStranded(s, a)
    requires forall wait :: S.Accepts(reason, wait) ==> Known(a, wait) && !Met(a, wait)
    ensures S.Ordered(S.Block(s, reason)) && NoneStranded(S.Block(s, reason), a)
  {
    hide S.Accepts, Met, Known, S.Ordered;
    S.BlockOrdered(s, reason);
    var t := S.Block(s, reason);
    forall pid: Pid, wait | S.WaitsFor(t, pid, wait)
      ensures Known(a, wait) && !Met(a, wait)
    {
      if s.current == Some(pid) {
      } else {
        assert S.WaitsFor(s, pid, wait);
      }
    }
  }

  lemma ScheduleAwake(x: System, t: S.Scheduler)
    requires Awake(x) && S.Ordered(t) && WaitsLess(x.sched, t)
    ensures Awake(x.(sched := t))
  {
    hide Sound, S.Ordered, NoneStranded, WaitsLess;
    LessIsAwake(x.sched, t, x.world.arena);
  }

  // ----- Each call -----

  lemma IoAccepts(wait: Wait)
    ensures forall other :: S.Accepts(S.Io(wait), other) <==> other == wait
  {
  }

  lemma ReadBlocks(a: Arena, id: Id, maximum: nat, wait: Wait)
    requires Within(a) && Read(a, id, maximum).1 == Success(Blocked(wait))
    ensures Known(a, wait) && !Met(a, wait)
  {
  }

  lemma WriteBlocks(a: Arena, id: Id, bytes: seq<Byte>, wait: Wait)
    requires Within(a) && Write(a, id, bytes).1 == Success(Blocked(wait))
    ensures Known(a, wait) && !Met(a, wait)
  {
  }

  lemma OneWoken(s: S.Scheduler, wait: Wait)
    ensures WakeAll(s, [wait]) == S.WakeWaiters(s, wait) && WakeAll(s, []) == s
  {
    hide S.WakeWaiters;
    assert [wait][1..] == [];
  }

  lemma ReadAwake(x: System, id: Id, maximum: nat)
    requires Awake(x) && id in x.world.arena.descriptions
    ensures Awake(Read1(x, id, maximum))
  {
    hide Sound, S.Ordered, NoneStranded, Covers, S.WakeWaiters, Read, Met, Known, Within, S.Accepts, S.Block, WakeAll;
    var a := x.world.arena;
    SoundWithin(x.world);
    match Read(a, id, maximum)
    case (_, Failure(_)) =>
    case (_, Success(Blocked(wait))) =>
      ReadBlocks(a, id, maximum, wait);
      IoAccepts(wait);
      BlockAwake(x.sched, a, S.Io(wait));
    case (b, Success(Ready(_))) =>
      StepSound(x.world, Reads(id, maximum));
      ReadCovers(a, id, maximum);
      var d := a.descriptions[id].description;
      WakingKeepsAwake(x.sched, a, b, if d.PipeReader? then [PipeWritable(d.pipe)] else []);
      OneWoken(x.sched, if d.PipeReader? then PipeWritable(d.pipe) else InputReadable(0));
  }

  lemma WriteAwake(x: System, id: Id, bytes: seq<Byte>)
    requires Awake(x) && id in x.world.arena.descriptions
    ensures Awake(Write1(x, id, bytes))
  {
    hide Sound, S.Ordered, NoneStranded, Covers, S.WakeWaiters, Write, Met, Known, Within, S.Accepts, S.Block, WakeAll;
    var a := x.world.arena;
    SoundWithin(x.world);
    match Write(a, id, bytes)
    case (_, Failure(_)) =>
    case (_, Success(Blocked(wait))) =>
      WriteBlocks(a, id, bytes, wait);
      IoAccepts(wait);
      BlockAwake(x.sched, a, S.Io(wait));
    case (b, Success(Ready(_))) =>
      StepSound(x.world, Writes(id, bytes));
      WriteCovers(a, id, bytes);
      var d := a.descriptions[id].description;
      WakingKeepsAwake(x.sched, a, b, if d.PipeWriter? then [PipeReadable(d.pipe)] else []);
      OneWoken(x.sched, if d.PipeWriter? then PipeReadable(d.pipe) else InputReadable(0));
  }

  lemma ReadyBlocks(a: Arena, id: Id, writing: bool, wait: Wait)
    requires Within(a) && PipesConnected(a) && ReadyFor(a, id, writing) == Success(Blocked(wait))
    ensures Known(a, wait) && !Met(a, wait)
  {
    hide Connected;
  }

  lemma {:induction false} PollBlocks(a: Arena, t: Table, polls: seq<(Fd, bool)>, wait: Wait)
    requires Within(a) && PipesConnected(a) && PollWaits(a, t, polls).Some? &&
             S.Accepts(S.AnyOf(PollWaits(a, t, polls).value), wait)
    ensures Known(a, wait) && !Met(a, wait)
    decreases |polls|
  {
    hide Within, PipesConnected, ReadyFor, Known, Met;
    var reasons := PollWaits(a, t, polls).value;
    var i :| 0 <= i < |reasons| && S.Accepts(reasons[i], wait);
    if i == 0 {
      ReadyBlocks(a, t.entries[polls[0].0], polls[0].1, wait);
    } else {
      assert PollWaits(a, t, polls[1..]).value == reasons[1..] && reasons[1..][i - 1] == reasons[i];
      PollBlocks(a, t, polls[1..], wait);
    }
  }

  lemma PollAwake(x: System, t: Table, polls: seq<(Fd, bool)>)
    requires Awake(x) && PollWaits(x.world.arena, t, polls).Some?
    ensures Awake(x.(sched := S.Block(x.sched, S.AnyOf(PollWaits(x.world.arena, t, polls).value))))
  {
    hide Counted, NoneDangles, TablesSound, PipesConnected, LocksAgree, Within, S.Ordered, NoneStranded, S.Accepts, Met,
         Known, PollWaits;
    var reason := S.AnyOf(PollWaits(x.world.arena, t, polls).value);
    forall wait | S.Accepts(reason, wait)
      ensures Known(x.world.arena, wait) && !Met(x.world.arena, wait)
    {
      PollBlocks(x.world.arena, t, polls, wait);
    }
    BlockAwake(x.sched, x.world.arena, reason);
  }

  /** A step that closes descriptions and wakes the waiters of all their pipe ends. */
  lemma ClosingAwake(x: System, e: Event, ids: seq<Id>)
    requires Awake(x) && Covers(x.world.arena, Step(x.world, e).arena, EndWaits(x.world.arena, ids))
    ensures Awake(Closing(x, e, ids))
  {
    hide Sound, S.Ordered, NoneStranded, Covers, Step, EndWaits, WakeAll;
    StepSound(x.world, e);
    WakingKeepsAwake(x.sched, x.world.arena, Step(x.world, e).arena, EndWaits(x.world.arena, ids));
  }

  lemma CloseAwake(x: System, pid: Pid, fd: Fd)
    requires Awake(x) && fd in TableOf(x.world, pid).entries
    ensures Awake(Closing(x, Closes(pid, fd), [TableOf(x.world, pid).entries[fd]]))
  {
    hide Awake, Covers, Release, EndWaits;
    ReleaseCovers(x.world.arena, TableOf(x.world, pid).entries[fd]);
    ClosingAwake(x, Closes(pid, fd), [TableOf(x.world, pid).entries[fd]]);
  }

  lemma ExecAwake(x: System, pid: Pid)
    requires Awake(x)
    ensures Awake(Closing(x, Execs(pid), Named(Flagged(TableOf(x.world, pid)))))
  {
    hide Awake, Covers, ReleaseAll, EndWaits, Named;
    ReleaseAllCovers(x.world.arena, Named(Flagged(TableOf(x.world, pid))));
    ClosingAwake(x, Execs(pid), Named(Flagged(TableOf(x.world, pid))));
  }

  lemma ExitAwake(x: System, pid: Pid, status: int)
    requires Awake(x)
    ensures var y := Closing(x, Exits(pid), Named(TableOf(x.world, pid).entries));
            Awake(y.(sched := S.Exit(y.sched, status)))
  {
    hide Awake, Covers, ReleaseAll, EndWaits, Named;
    var ids := Named(TableOf(x.world, pid).entries);
    ReleaseAllCovers(x.world.arena, ids);
    ClosingAwake(x, Exits(pid), ids);
    ExitedAwake(Closing(x, Exits(pid), ids), status);
  }

  lemma ExitedAwake(y: System, status: int)
    requires Awake(y)
    ensures Awake(y.(sched := S.Exit(y.sched, status)))
  {
    hide Sound, NoneStranded;
    S.ExitOrdered(y.sched, status);
    ScheduleAwake(y, S.Exit(y.sched, status));
  }

  /** Arena changes that make no condition true need no wake. */
  lemma QuietAwake(x: System, w: World)
    requires Awake(x) && Sound(w) && Covers(x.world.arena, w.arena, [])
    ensures Awake(x.(world := w))
  {
    hide Sound, S.Ordered, NoneStranded, Covers, WakeAll;
    WakingKeepsAwake(x.sched, x.world.arena, w.arena, []);
    OneWoken(x.sched, InputReadable(0));
  }

  lemma DupAwake(x: System, pid: Pid, source: Fd, destination: Fd)
    requires Awake(x)
    ensures Awake(DoAs(x, pid, DupFd(source, destination)))
  {
    hide Awake, Covers, EndWaits, Step, Closing, DoAs, Duplicate;
    DupIs(x, pid, source, destination);
    var a, t := x.world.arena, TableOf(x.world, pid);
    var e := Dups(pid, source, destination);
    var ids := if destination in t.entries then [t.entries[destination]] else [];
    SoundOf(x);
    StepSound(x.world, e);
    DupCovers(x, pid, source, destination);
    ClosingAwake(x, e, ids);
    if Duplicate(a, t, source, destination).2.Failure? {
      QuietAwake(x, Step(x.world, e));
    }
  }

  lemma DupIs(x: System, pid: Pid, source: Fd, destination: Fd)
    ensures var t := TableOf(x.world, pid);
            var e := Dups(pid, source, destination);
            DoAs(x, pid, DupFd(source, destination)) ==
            if Duplicate(x.world.arena, t, source, destination).2.Failure? then x.(world := Step(x.world, e))
            else Closing(x, e, if destination in t.entries then [t.entries[destination]] else [])
  {
    hide Step, Closing, Duplicate;
  }

  /** What a duplication can make true: the waiters of what stood at the destination, if it succeeds. */
  lemma DupCovers(x: System, pid: Pid, source: Fd, destination: Fd)
    requires Awake(x)
    ensures var a, t := x.world.arena, TableOf(x.world, pid);
            var b := Step(x.world, Dups(pid, source, destination)).arena;
            && Covers(a, b, EndWaits(a, if destination in t.entries then [t.entries[destination]] else []))
            && (Duplicate(a, t, source, destination).2.Failure? ==> Covers(a, b, []))
  {
    hide Awake, Covers, Install, EndWaits, Step;
    var a, t := x.world.arena, TableOf(x.world, pid);
    DupStep(x.world, pid, source, destination);
    CoversNone(a);
    NoEndWaits(a);
    if source in t.entries && source != destination {
      InstallCovers(a, t, destination, t.entries[source]);
      if Duplicate(a, t, source, destination).2.Failure? {
        DupFailure(x, pid, source, destination);
      }
    } else {
      CoversMore(a, a, [], EndWaits(a, if destination in t.entries then [t.entries[destination]] else []));
    }
  }

  lemma SoundOf(x: System)
    requires Awake(x)
    ensures Sound(x.world)
  {
  }

  lemma NoEndWaits(a: Arena)
    ensures EndWaits(a, []) == []
  {
  }

  lemma DupStep(w: World, pid: Pid, source: Fd, destination: Fd)
    ensures Step(w, Dups(pid, source, destination)).arena == Duplicate(w.arena, TableOf(w, pid), source, destination).0
  {
  }

  /** In a sound world a duplication that fails leaves the arena alone. */
  lemma DupFailure(x: System, pid: Pid, source: Fd, destination: Fd)
    requires Awake(x) && source in TableOf(x.world, pid).entries && source != destination
    requires Duplicate(x.world.arena, TableOf(x.world, pid), source, destination).2.Failure?
    ensures Covers(x.world.arena, Duplicate(x.world.arena, TableOf(x.world, pid), source, destination).0, [])
  {
    hide S.Ordered, NoneStranded, Sound, Covers, Release;
    var w, t := x.world, TableOf(x.world, pid);
    CoversNone(w.arena);
    var id := t.entries[source];
    if destination in t.entries && destination >= 0 && Retain(w.arena, id).1.Success? {
      HeldSound(w, id);
      ReplaceSound(Held(w, id), pid, destination, id);
    }
  }

  lemma PlusCovers(a: Arena, extra: multiset<Id>)
    ensures Covers(a, Plus(a, extra), [])
  {
  }

  lemma InheritedAwake(x: System, pid: Pid, child: Pid)
    requires Awake(x) && child !in x.world.tables && Fork(x.world.arena, TableOf(x.world, pid)).1.Success?
    ensures Awake(x.(world := WithTable(x.world, child, Fork(x.world.arena, TableOf(x.world, pid)).0,
                                        TableOf(x.world, pid))))
  {
    hide Awake, Covers, Fork, Plus, Named, Step;
    SoundOf(x);
    ForkExactly(x.world, pid);
    PlusCovers(x.world.arena, multiset(Named(TableOf(x.world, pid).entries)));
    ForkSound(x.world, pid, child);
    ForkStep(x.world, pid, child);
    QuietAwake(x, Step(x.world, Forks(pid, child)));
  }

  lemma ForkStep(w: World, pid: Pid, child: Pid)
    requires child !in w.tables && Fork(w.arena, TableOf(w, pid)).1 == Success(TableOf(w, pid))
    ensures Step(w, Forks(pid, child)) == WithTable(w, child, Fork(w.arena, TableOf(w, pid)).0, TableOf(w, pid))
  {
    hide Fork;
  }

  /** A child that is created sees the same conditions; one that is refused leaves no trace. */
  lemma ForkAwake(x: System, pid: Pid, child: Pid)
    requires Awake(x)
    ensures Awake(Forked(x, pid, child))
  {
    hide Awake, Fork, CloseAll, S.Spawn, Plus, Named, Fits;
    SoundOf(x);
    if child !in x.world.tables {
      ForkExactly(x.world, pid);
      if Fork(x.world.arena, TableOf(x.world, pid)).1.Success? {
        InheritedAwake(x, pid, child);
        CloseAllUndoesFork(x.world, pid);
        SpawnAwake(x.(world := WithTable(x.world, child, Fork(x.world.arena, TableOf(x.world, pid)).0,
                                         TableOf(x.world, pid))), child);
      }
    }
  }

  lemma SpawnAwake(x: System, child: Pid)
    requires Awake(x)
    ensures Awake(x.(sched := S.Spawn(x.sched, child).0))
  {
    hide Sound, NoneStranded;
    S.SpawnOrdered(x.sched, child);
    ScheduleAwake(x, S.Spawn(x.sched, child).0);
  }

  lemma InstallFreeCovers(w: World, pid: Pid, fd: Fd, id: Id)
    requires fd !in TableOf(w, pid).entries
    ensures Covers(w.arena, Step(w, Installs(pid, fd, id)).arena, [])
  {
    hide Covers, Install;
    InstallCovers(w.arena, TableOf(w, pid), fd, id);
  }

  lemma PipeAwake(x: System, pid: Pid, reader: Fd, writer: Fd)
    requires Awake(x)
    ensures Awake(x.(world := WithPipe(x.world, pid, reader, writer)))
  {
    hide Awake, Covers, Step, OpenPipe;
    SoundOf(x);
    var w, t := x.world, TableOf(x.world, pid);
    if TwoFree(t, reader, writer) {
      var w1 := Step(w, MakePipe(PIPE_CAPACITY));
      StepSound(w, MakePipe(PIPE_CAPACITY));
      PipeEventCovers(w);
      QuietAwake(x, w1);
      match OpenPipe(w.arena, PIPE_CAPACITY).1
      case Failure(_) =>
      case Success((r, s)) =>
        EndsInstalled(x.(world := w1), pid, reader, r, writer, s);
    }
  }

  lemma PipeEventCovers(w: World)
    requires Sound(w)
    ensures Covers(w.arena, Step(w, MakePipe(PIPE_CAPACITY)).arena, [])
    ensures Step(w, MakePipe(PIPE_CAPACITY)).tables == w.tables
  {
    hide Covers, OpenPipe;
    SoundWithin(w);
    PipeCovers(w.arena, PIPE_CAPACITY);
  }

  lemma EndsInstalled(x: System, pid: Pid, reader: Fd, r: Id, writer: Fd, s: Id)
    requires Awake(x) && reader !in TableOf(x.world, pid).entries && writer !in TableOf(x.world, pid).entries
    requires reader != writer
    ensures Awake(x.(world := Step(Step(x.world, Installs(pid, reader, r)), Installs(pid, writer, s))))
  {
    hide Awake, Covers, Step;
    SoundOf(x);
    var w1 := Step(x.world, Installs(pid, reader, r));
    StepSound(x.world, Installs(pid, reader, r));
    InstallFreeCovers(x.world, pid, reader, r);
    QuietAwake(x, w1);
    InstallAdds(x.world, pid, reader, r, writer);
    StepSound(w1, Installs(pid, writer, s));
    InstallFreeCovers(w1, pid, writer, s);
    QuietAwake(x.(world := w1), Step(w1, Installs(pid, writer, s)));
  }

  lemma InstallAdds(w: World, pid: Pid, fd: Fd, id: Id, other: Fd)
    requires other !in TableOf(w, pid).entries && other != fd
    ensures other !in TableOf(Step(w, Installs(pid, fd, id)), pid).entries
  {
    hide Retain, Release;
  }

  /** Replacing the stream of an input description. */
  lemma InputSound(w: World, id: Id, d: Description)
    requires Sound(w) && id in w.arena.descriptions && w.arena.descriptions[id].description.Input? && d.Input?
    ensures Sound(w.(arena := WithDescription(w.arena, id, d)))
    ensures Covers(w.arena, WithDescription(w.arena, id, d), [InputReadable(id)])
  {
    hide ArenaSound, Counted, NoneDangles, TablesSound;
    BytesWithin(w.arena);
    AlikeSound(w.arena, WithDescription(w.arena, id, d));
    ArenaStep(w, WithDescription(w.arena, id, d));
  }

  lemma FeedAwake(x: System, id: Id, bytes: seq<Byte>)
    requires Awake(x)
    ensures Awake(Feed(x, id, bytes)) && Awake(ShutInput(x, id))
  {
    hide Sound, S.Ordered, NoneStranded, Covers, WithDescription, WakeAll, S.WakeWaiters;
    var a := x.world.arena;
    if id in a.descriptions && a.descriptions[id].description.Input? {
      var d := a.descriptions[id].description;
      var more, shut := Input(d.bytes + bytes, d.cursor, false), Input(d.bytes, d.cursor, true);
      InputSound(x.world, id, more);
      InputSound(x.world, id, shut);
      WakingKeepsAwake(x.sched, a, WithDescription(a, id, more), [InputReadable(id)]);
      WakingKeepsAwake(x.sched, a, WithDescription(a, id, shut), [InputReadable(id)]);
      OneWoken(x.sched, InputReadable(id));
    }
  }

  lemma ParkAwake(x: System, pid: Pid, key: nat)
    requires Awake(x)
    ensures Awake(x.(sched := S.Park(x.sched, pid, S.Elsewhere(key))))
  {
    hide Sound, S.Ordered, S.Without, Known, Met;
    var t := S.Park(x.sched, pid, S.Elsewhere(key));
    S.ParkOrdered(x.sched, pid, S.Elsewhere(key));
    forall other, wait | S.WaitsFor(t, other, wait)
      ensures Known(x.world.arena, wait) && !Met(x.world.arena, wait)
    {
      assert S.WaitsFor(x.sched, other, wait);
    }
  }

  lemma ScheduleCallAwake(x: System, call: Call)
    requires Awake(x)
    requires IsScheduling(call) || call.YieldTask?
    ensures Awake(Do(x, call))
  {
    hide Sound, NoneStranded, S.Without, S.NoRepeats, S.Ordered;
    match call
    case DispatchTask =>
      S.DispatchOrdered(x.sched);
      ScheduleAwake(x, S.Dispatch(x.sched));
    case StopTask(pid) =>
      S.StopOrdered(x.sched, pid);
      ScheduleAwake(x, S.Stop(x.sched, pid));
    case ResumeTask(pid) =>
      S.ResumeOrdered(x.sched, pid);
      ScheduleAwake(x, S.Resume(x.sched, pid));
    case WakeTask(pid) =>
      S.WakeOrdered(x.sched, pid);
      ScheduleAwake(x, S.Wake(x.sched, pid));
    case ReapTask(pid) =>
      S.ReapOrdered(x.sched, pid);
      ScheduleAwake(x, S.Reap(x.sched, pid));
    case ParkTask(pid, key) =>
      ParkAwake(x, pid, key);
    case SelectTask(pid) =>
      S.SelectOrdered(x.sched, pid);
      ScheduleAwake(x, S.Select(x.sched, pid));
    case YieldTask =>
      S.YieldOrdered(x.sched);
      ScheduleAwake(x, S.Yield(x.sched));
  }

  lemma ElsewhereAwake(x: System, key: nat)
    requires Awake(x)
    ensures Awake(x.(sched := S.Block(x.sched, S.Elsewhere(key))))
  {
    hide Sound, S.Ordered, NoneStranded;
    BlockAwake(x.sched, x.world.arena, S.Elsewhere(key));
  }

  lemma OwnedLives(x: System, pid: Pid, fd: Fd)
    requires Awake(x) && fd in TableOf(x.world, pid).entries
    ensures TableOf(x.world, pid).entries[fd] in x.world.arena.descriptions
  {
    hide Counted, ArenaSound, TablesSound, S.Ordered, NoneStranded;
  }

  lemma DoAsAwake(x: System, pid: Pid, call: Call)
    requires Awake(x) && !call.YieldTask? && !call.FeedInput? && !call.CloseInput? && !IsScheduling(call)
    ensures Awake(DoAs(x, pid, call))
  {
    hide Awake, Closing, Read1, Write1, WithPipe, Forked, S.Block, PollWaits;
    var t := TableOf(x.world, pid);
    match call
    case ReadFd(fd, maximum) =>
      if fd in t.entries {
        OwnedLives(x, pid, fd);
        ReadAwake(x, t.entries[fd], maximum);
      }
    case WriteFd(fd, bytes) =>
      if fd in t.entries {
        OwnedLives(x, pid, fd);
        WriteAwake(x, t.entries[fd], bytes);
      }
    case PollFds(polls) =>
      if PollWaits(x.world.arena, t, polls).Some? {
        PollAwake(x, t, polls);
      }
    case CloseFd(fd) =>
      if fd in t.entries {
        CloseAwake(x, pid, fd);
      }
    case DupFd(source, destination) => DupAwake(x, pid, source, destination);
    case NewPipe(reader, writer) => PipeAwake(x, pid, reader, writer);
    case ExecImage => ExecAwake(x, pid);
    case ExitTask(status) => ExitAwake(x, pid, status);
    case ForkTask(child) => ForkAwake(x, pid, child);
    case WaitElsewhere(key) => ElsewhereAwake(x, key);
  }

  lemma CallAwake(x: System, call: Call)
    requires Awake(x)
    ensures Awake(Do(x, call))
  {
    hide Awake, DoAs, Feed, ShutInput;
    if call.FeedInput? {
      FeedAwake(x, call.id, call.bytes);
    } else if call.CloseInput? {
      FeedAwake(x, call.id, []);
    } else if IsScheduling(call) || call.YieldTask? {
      ScheduleCallAwake(x, call);
    } else if x.sched.current.Some? {
      DoAsAwake(x, x.sched.current.value, call);
    }
  }

  /** In every interleaving of reads, writes, polls, closes, duplications, pipes, forks, execs, exits,
      host input and job control, no task waits for a descriptor condition that currently holds. */
  lemma {:induction false} NoLostWakeup(x: System, calls: seq<Call>)
    requires Awake(x)
    ensures Awake(RunCalls(x, calls))
    decreases |calls|
  {
    hide Awake, Do;
    if calls != [] {
      CallAwake(x, calls[0]);
      NoLostWakeup(Do(x, calls[0]), calls[1..]);
    }
  }

  /** A machine with one running task and no descriptors. */
  const Boot: System := System(Start, S.Scheduler(map[1 := S.Running], [], [], Some(1)))

  lemma BootAwake()
    ensures Awake(Boot)
  {
    StartSound();
  }

  /** The same for every run of a new machine. */
  lemma NoneEverStranded(calls: seq<Call>)
    ensures Awake(RunCalls(Boot, calls))
  {
    hide Awake;
    BootAwake();
    NoLostWakeup(Boot, calls);
  }
}
