// Scheduling over whole runs of the machine: who blocks, and in which order tasks get to run.

module CallQueue {
  import opened Basics
  import opened Descriptors
  import opened DescriptorRuns
  import S = Scheduling
  import opened SchedulerOrder
  import opened Wakeups

  // ----- The runnable queue -----

  /** The queue only grew at its end, and no task was put on the processor. */
  ghost predicate OnlyGrew(s: S.Scheduler, t: S.Scheduler) {
    s.runnable <= t.runnable && (t.current == s.current || t.current.None?)
  }

  lemma WakeWaitersGrew(s: S.Scheduler, wait: Wait)
    ensures OnlyGrew(s, S.WakeWaiters(s, wait))
  {
    hide S.Accepts, S.WakeEach, S.Waiters;
    WakeEachAppends(s, S.Waiters(s, s.blocked, wait));
  }

  lemma {:induction false} WakeAllGrew(s: S.Scheduler, waits: seq<Wait>)
    ensures OnlyGrew(s, WakeAll(s, waits))
    decreases |waits|
  {
    hide S.WakeWaiters;
    if waits != [] {
      WakeWaitersGrew(s, waits[0]);
      WakeAllGrew(S.WakeWaiters(s, waits[0]), waits[1..]);
    }
  }

  lemma CallByGrew(x: System, pid: Pid, call: Call)
    ensures OnlyGrew(x.sched, DoAs(x, pid, call).sched)
  {
    hide S.WakeWaiters, WakeAll, EndWaits, Step, WithPipe, PollWaits, Read, Write, Duplicate, Fork, CloseAll, Named;
    hide Flagged;
    var t := TableOf(x.world, pid);
    match call
    case ReadFd(fd, maximum) =>
      if fd in t.entries {
        ReadGrew(x, t.entries[fd], maximum);
      }
    case WriteFd(fd, bytes) =>
      if fd in t.entries {
        WriteGrew(x, t.entries[fd], bytes);
      }
    case CloseFd(fd) =>
      if fd in t.entries {
        WakeAllGrew(x.sched, EndWaits(x.world.arena, [t.entries[fd]]));
      }
    case DupFd(source, destination) =>
      WakeAllGrew(x.sched, EndWaits(x.world.arena, if destination in t.entries then [t.entries[destination]] else []));
    case ExecImage => WakeAllGrew(x.sched, EndWaits(x.world.arena, Named(Flagged(t))));
    case ExitTask(_) => WakeAllGrew(x.sched, EndWaits(x.world.arena, Named(t.entries)));
    case _ =>
  }

  lemma ReadGrew(x: System, id: Id, maximum: nat)
    ensures OnlyGrew(x.sched, Read1(x, id, maximum).sched)
  {
    hide S.WakeWaiters;
    if id in x.world.arena.descriptions && x.world.arena.descriptions[id].description.PipeReader? {
      WakeWaitersGrew(x.sched, PipeWritable(x.world.arena.descriptions[id].description.pipe));
    }
  }

  lemma WriteGrew(x: System, id: Id, bytes: seq<Byte>)
    ensures OnlyGrew(x.sched, Write1(x, id, bytes).sched)
  {
    hide S.WakeWaiters;
    if id in x.world.arena.descriptions && x.world.arena.descriptions[id].description.PipeWriter? {
      WakeWaitersGrew(x.sched, PipeReadable(x.world.arena.descriptions[id].description.pipe));
    }
  }

  lemma FeedGrew(x: System, id: Id, bytes: seq<Byte>)
    ensures OnlyGrew(x.sched, Feed(x, id, bytes).sched) && OnlyGrew(x.sched, ShutInput(x, id).sched)
  {
    hide S.WakeWaiters;
    WakeWaitersGrew(x.sched, InputReadable(id));
  }

  /** A task that was taken out of the queue or left there. */
  ghost predicate OnlyWithout(s: S.Scheduler, t: S.Scheduler, pid: Pid) {
    t.runnable == s.runnable || t.runnable == S.Without(s.runnable, pid)
  }

  /** Dispatching takes the first task of the queue; stopping or parking a task, or the host's choice of it, takes
      that task out; every other call appends at the end, if anything. Only dispatch and the host's choice put a
      task on the processor. */
  lemma QueueExactly(x: System, call: Call)
    ensures var s, t := x.sched, Do(x, call).sched;
            match call
            case DispatchTask =>
              if s.current.None? && s.runnable != [] then t.runnable == s.runnable[1..] else t == s
            case StopTask(pid) => OnlyWithout(s, t, pid) && (t.current == s.current || t.current.None?)
            case ParkTask(pid, _) => OnlyWithout(s, t, pid) && t.current == s.current
            case SelectTask(pid) => OnlyWithout(s, t, pid) && (t.current == s.current || t.current == Some(pid))
            case _ => OnlyGrew(s, t)
  {
    hide DoAs, Feed, ShutInput, S.Without;
    match call
    case FeedInput(id, bytes) => FeedGrew(x, id, bytes);
    case CloseInput(id) => FeedGrew(x, id, []);
    case DispatchTask =>
    case StopTask(_) =>
    case ResumeTask(_) =>
    case WakeTask(_) =>
    case ReapTask(_) =>
    case ParkTask(_, _) =>
    case SelectTask(_) =>
    case _ =>
      if x.sched.current.Some? {
        CallByGrew(x, x.sched.current.value, call);
      }
  }

  // ----- First come, first served -----

  /** A task is in the queue in every state of a run. */
  ghost predicate Queued(x: System, calls: seq<Call>, p: Pid)
    decreases |calls|
  {
    p in x.sched.runnable && (calls != [] ==> Queued(Do(x, calls[0]), calls[1..], p))
  }

  /** A task does not run, and is not ahead of `p` if it is in the queue. */
  ghost predicate Behind(s: S.Scheduler, p: Pid, q: Pid) {
    s.current != Some(q) && (q in s.runnable ==> Before(s.runnable, p, q))
  }

  lemma DispatchBehind(s: S.Scheduler, p: Pid, q: Pid)
    requires S.Ordered(s) && p in s.runnable && p in S.Dispatch(s).runnable && Behind(s, p, q)
    ensures Behind(S.Dispatch(s), p, q)
  {
    hide Before;
    if s.current.None? && s.runnable != [] {
      S.TailOnce(s.runnable);
      assert s.runnable[0] in s.runnable;
      if q in s.runnable {
        NotFirst(s.runnable, p, q);
        BeforeTail(s.runnable, p, q);
      }
    }
  }

  lemma NotFirst(queue: seq<Pid>, p: Pid, q: Pid)
    requires S.NoRepeats(queue) && Before(queue, p, q)
    ensures queue[0] != q
  {
    var i, j := BeforeAt(queue, p, q);
  }

  lemma TakenBehind(s: S.Scheduler, t: S.Scheduler, pid: Pid, p: Pid, q: Pid)
    requires S.Ordered(s) && p in s.runnable && p in t.runnable && Behind(s, p, q)
    requires OnlyWithout(s, t, pid) && t.current != Some(q)
    ensures Behind(t, p, q)
  {
    hide Before, S.Without, S.NoRepeats;
    S.WithoutExactly(s.runnable, pid);
    if q in t.runnable {
      NotBefore(s.runnable, p, q);
      if t.runnable != s.runnable {
        BeforeWithout(s.runnable, pid, p, q);
      }
    }
  }

  lemma GrownBehind(s: S.Scheduler, t: S.Scheduler, p: Pid, q: Pid)
    requires OnlyGrew(s, t) && p in s.runnable && Behind(s, p, q)
    ensures Behind(t, p, q)
  {
    hide Before;
    if q in s.runnable {
      BeforePrefix(s.runnable, t.runnable, p, q);
    } else if q in t.runnable {
      BeforeJoined(s.runnable, t.runnable, p, q);
    }
  }

  lemma CallBehind(x: System, call: Call, p: Pid, q: Pid)
    requires S.Ordered(x.sched) && p in x.sched.runnable && p in Do(x, call).sched.runnable && Behind(x.sched, p, q)
    requires call != SelectTask(q)
    ensures Behind(Do(x, call).sched, p, q)
  {
    hide S.Ordered, Do, Before, OnlyGrew, OnlyWithout;
    var t := Do(x, call).sched;
    QueueExactly(x, call);
    match call
    case DispatchTask =>
      DispatchBehind(x.sched, p, q);
      DispatchIs(x);
    case StopTask(pid) => TakenBehind(x.sched, t, pid, p, q);
    case ParkTask(pid, _) => TakenBehind(x.sched, t, pid, p, q);
    case SelectTask(pid) => TakenBehind(x.sched, t, pid, p, q);
    case _ => GrownBehind(x.sched, Do(x, call).sched, p, q);
  }

  lemma DispatchIs(x: System)
    ensures Do(x, DispatchTask).sched == S.Dispatch(x.sched)
  {
  }

  /** In every run: while a task waits in the queue, no task that was not ahead of it gets to run, whether it was
      behind it, blocked, stopped or not even created, unless the host chooses it by number. */
  lemma {:induction false} FirstComeFirstServed(x: System, calls: seq<Call>, p: Pid, q: Pid)
    requires Awake(x) && Queued(x, calls, p) && Behind(x.sched, p, q) && SelectTask(q) !in calls
    ensures Behind(RunCalls(x, calls).sched, p, q)
    decreases |calls|
  {
    hide Awake, Do, Behind;
    if calls != [] {
      var y := Do(x, calls[0]);
      OrderedOf(x);
      assert Queued(y, calls[1..], p);
      CallBehind(x, calls[0], p, q);
      CallAwake(x, calls[0]);
      FirstComeFirstServed(y, calls[1..], p, q);
    }
  }

  lemma OrderedOf(x: System)
    requires Awake(x)
    ensures S.Ordered(x.sched)
  {
    hide S.Ordered;
  }

  /** How often a run starts a task. */
  function Started(x: System, calls: seq<Call>): nat
    decreases |calls|
  {
    if calls == [] then 0
    else
      (if calls[0].DispatchTask? && x.sched.current.None? && x.sched.runnable != [] then 1 else 0) +
      Started(Do(x, calls[0]), calls[1..])
  }

  /** A task runs in some state of a run. */
  ghost predicate Runs(x: System, calls: seq<Call>, p: Pid)
    decreases |calls|
  {
    x.sched.current == Some(p) || (calls != [] && Runs(Do(x, calls[0]), calls[1..], p))
  }

  lemma {:induction false} PlacePrefix(queue: seq<Pid>, more: seq<Pid>, p: Pid)
    requires queue <= more && p in queue
    ensures IndexOf(more, p) == IndexOf(queue, p)
  {
    if queue[0] != p {
      PlacePrefix(queue[1..], more[1..], p);
    }
  }

  lemma {:induction false} PlaceWithout(queue: seq<Pid>, gone: Pid, p: Pid)
    requires p in queue && gone != p
    ensures p in S.Without(queue, gone) && IndexOf(S.Without(queue, gone), p) <= IndexOf(queue, p)
  {
    hide S.Without;
    S.WithoutExactly(queue, gone);
    WithoutUnfolds(queue, gone);
    if queue[0] != p {
      PlaceWithout(queue[1..], gone, p);
      if queue[0] == gone {
        assert S.Without(queue, gone) == S.Without(queue[1..], gone);
      } else {
        assert S.Without(queue, gone)[0] == queue[0];
        assert S.Without(queue, gone)[1..] == S.Without(queue[1..], gone);
      }
    }
  }

  /** A task is kept from the queue by job control or by its host. */
  predicate Withdraws(call: Call, p: Pid) {
    (call.StopTask? || call.ParkTask?) && call.pid == p
  }

  /** A task in the queue stays there, no further back, unless it is stopped, parked or put on the processor. */
  lemma CallMovesUp(x: System, call: Call, p: Pid)
    requires S.Ordered(x.sched) && p in x.sched.runnable && !Withdraws(call, p)
    ensures var y := Do(x, call);
            || y.sched.current == Some(p)
            || (p in y.sched.runnable &&
                IndexOf(y.sched.runnable, p) + Started(x, [call]) <= IndexOf(x.sched.runnable, p))
  {
    hide S.Ordered, Do, S.Dispatch, S.Without, IndexOf;
    var s, y := x.sched, Do(x, call);
    QueueExactly(x, call);
    StartedOne(x, call);
    match call
    case DispatchTask =>
      DispatchMovesUp(s, p);
      DispatchIs(x);
    case StopTask(pid) => PlaceWithout(s.runnable, pid, p);
    case ParkTask(pid, _) => PlaceWithout(s.runnable, pid, p);
    case SelectTask(pid) =>
      if pid == p {
        SelectIs(x, p);
      } else {
        PlaceWithout(s.runnable, pid, p);
      }
    case _ => PlacePrefix(s.runnable, y.sched.runnable, p);
  }

  lemma SelectIs(x: System, p: Pid)
    requires S.Ordered(x.sched) && p in x.sched.runnable
    ensures var y := Do(x, SelectTask(p)).sched; if x.sched.current.None? then y.current == Some(p) else y == x.sched
  {
    hide S.NoRepeats, S.Without;
  }

  lemma StartedOne(x: System, call: Call)
    ensures Started(x, [call]) ==
            if call.DispatchTask? && x.sched.current.None? && x.sched.runnable != [] then 1 else 0
  {
    hide Do;
    assert [call][1..] == [];
    assert Started(Do(x, call), []) == 0;
  }

  lemma DispatchMovesUp(s: S.Scheduler, p: Pid)
    requires S.Ordered(s) && p in s.runnable
    ensures var t := S.Dispatch(s);
            || t.current == Some(p)
            || (p in t.runnable &&
                IndexOf(t.runnable, p) + (if s.current.None? then 1 else 0) <= IndexOf(s.runnable, p))
  {
    hide S.NoRepeats;
    S.DispatchOrdered(s);
    if s.current.None? && s.runnable[0] != p {
      assert s.runnable == [s.runnable[0]] + s.runnable[1..];
    }
  }

  /** In every run in which a task of the queue is neither stopped nor parked, it gets to run by the time as many
      tasks have been dispatched as were ahead of it, and one more. */
  lemma {:induction false} RunsInTime(x: System, calls: seq<Call>, p: Pid)
    requires Awake(x) && p in x.sched.runnable && forall call :: call in calls ==> !Withdraws(call, p)
    requires Started(x, calls) > IndexOf(x.sched.runnable, p)
    ensures Runs(x, calls, p)
    decreases |calls|
  {
    hide Awake, Do, IndexOf;
    OrderedOf(x);
    var y := Do(x, calls[0]);
    assert calls == [calls[0]] + calls[1..];
    CallMovesUp(x, calls[0], p);
    StartedOne(x, calls[0]);
    CallAwake(x, calls[0]);
    if y.sched.current != Some(p) {
      RunsInTime(y, calls[1..], p);
    } else {
      assert Runs(y, calls[1..], p);
    }
  }

  // ----- Blocking -----

  /** Nothing can be moved through a description now, and something may be later. */
  predicate Stuck(a: Arena, id: Id, writing: bool) {
    && id in a.descriptions
    && match a.descriptions[id].description
       case Input(bytes, cursor, closed) => !writing && cursor >= |bytes| && !closed
       case PipeReader(p) => !writing && p in a.pipes && a.pipes[p].bytes == [] && a.pipes[p].writers > 0
       case PipeWriter(p) =>
         writing && p in a.pipes && a.pipes[p].readers > 0 && |a.pipes[p].bytes| >= a.pipes[p].capacity
       case _ => false
  }

  /** The condition that says that something can be moved. */
  function Until(a: Arena, id: Id): Wait
    requires id in a.descriptions
  {
    match a.descriptions[id].description
    case PipeReader(p) => PipeReadable(p)
    case PipeWriter(p) => PipeWritable(p)
    case _ => InputReadable(id)
  }

  /** The running task blocks for a reason: nothing else changes. */
  ghost predicate BlocksFor(x: System, y: System, pid: Pid, reason: S.Reason) {
    && y.world == x.world && y.sched.current.None? && y.sched.runnable == x.sched.runnable
    && y.sched.states == x.sched.states[pid := S.Waiting(reason)] && y.sched.blocked == x.sched.blocked + [pid]
  }

  /** A read or a write blocks exactly when the descriptor is stuck, for exactly its condition; otherwise the task
      runs on. */
  lemma TransferBlocksExactly(x: System, pid: Pid, fd: Fd, maximum: nat, bytes: seq<Byte>)
    requires Awake(x) && x.sched.current == Some(pid) && fd in TableOf(x.world, pid).entries
    ensures var id := TableOf(x.world, pid).entries[fd];
            var y, z := Do(x, ReadFd(fd, maximum)), Do(x, WriteFd(fd, bytes));
            && id in x.world.arena.descriptions
            && (if Stuck(x.world.arena, id, false) then BlocksFor(x, y, pid, S.Io(Until(x.world.arena, id)))
                else y.sched.current == Some(pid))
            && (if Stuck(x.world.arena, id, true) then BlocksFor(x, z, pid, S.Io(Until(x.world.arena, id)))
                else z.sched.current == Some(pid))
  {
    hide Awake, S.WakeWaiters;
    OwnedLives(x, pid, fd);
    var d := x.world.arena.descriptions[TableOf(x.world, pid).entries[fd]].description;
    if d.PipeReader? || d.PipeWriter? {
      WakeKeepsCurrent(x.sched, PipeWritable(d.pipe));
      WakeKeepsCurrent(x.sched, PipeReadable(d.pipe));
    }
  }

  lemma WakeKeepsCurrent(s: S.Scheduler, wait: Wait)
    ensures S.WakeWaiters(s, wait).current == s.current
  {
    hide S.Accepts, S.WakeEach, S.Waiters;
    WakeEachAppends(s, S.Waiters(s, s.blocked, wait));
  }

  /** Every descriptor of a poll is open and stuck. */
  ghost predicate AllStuck(a: Arena, t: Table, polls: seq<(Fd, bool)>) {
    forall i :: 0 <= i < |polls| ==> polls[i].0 in t.entries && Stuck(a, t.entries[polls[i].0], polls[i].1)
  }

  lemma StuckExactly(a: Arena, id: Id, writing: bool)
    requires PipesConnected(a)
    ensures Stuck(a, id, writing) <==> ReadyFor(a, id, writing).Success? && ReadyFor(a, id, writing).value.Blocked?
    ensures Stuck(a, id, writing) ==> ReadyFor(a, id, writing) == Success(Blocked(Until(a, id)))
  {
    hide Connected;
  }

  /** The reasons of a poll are the conditions of its descriptors. */
  ghost predicate PollReasons(a: Arena, t: Table, polls: seq<(Fd, bool)>, reasons: seq<S.Reason>)
    requires AllStuck(a, t, polls)
  {
    && |reasons| == |polls|
    && (forall i :: 0 <= i < |polls| ==> reasons[i] == S.Io(Until(a, t.entries[polls[i].0])))
  }

  lemma {:induction false} PollWaitsExactly(a: Arena, t: Table, polls: seq<(Fd, bool)>)
    requires PipesConnected(a)
    ensures PollWaits(a, t, polls).Some? <==> AllStuck(a, t, polls)
    ensures AllStuck(a, t, polls) ==> PollReasons(a, t, polls, PollWaits(a, t, polls).value)
    decreases |polls|
  {
    hide PipesConnected, ReadyFor, Stuck, Until;
    if polls != [] {
      assert polls == [polls[0]] + polls[1..];
      PollWaitsExactly(a, t, polls[1..]);
      if polls[0].0 in t.entries {
        StuckExactly(a, t.entries[polls[0].0], polls[0].1);
      }
      assert AllStuck(a, t, polls) <==>
             (polls[0].0 in t.entries && Stuck(a, t.entries[polls[0].0], polls[0].1)) && AllStuck(a, t, polls[1..]);
    }
  }

  /** A poll blocks exactly when it names some descriptors but not too many, and each of them is open and stuck,
      until any of their conditions holds; otherwise nothing changes. */
  lemma PollBlocksExactly(x: System, pid: Pid, polls: seq<(Fd, bool)>)
    requires Awake(x) && x.sched.current == Some(pid)
    ensures var a, t := x.world.arena, TableOf(x.world, pid);
            var y := Do(x, PollFds(polls));
            if CanPoll(polls) && AllStuck(a, t, polls) then
              exists reasons :: PollReasons(a, t, polls, reasons) && BlocksFor(x, y, pid, S.AnyOf(reasons))
            else y == x
  {
    hide Counted, NoneDangles, TablesSound, Within, LocksAgree, S.Ordered, NoneStranded, PollWaits, PipesConnected;
    var a, t := x.world.arena, TableOf(x.world, pid);
    PollWaitsExactly(a, t, polls);
    if AllStuck(a, t, polls) {
      var reasons := PollWaits(a, t, polls).value;
      assert PollReasons(a, t, polls, reasons);
    }
  }

  /** A task that exits is over, one that yields goes to the end of the queue, and one that waits for something
      other than a descriptor waits for just that. */
  lemma LeavesExactly(x: System, pid: Pid, status: int, key: nat)
    requires Awake(x) && x.sched.current == Some(pid)
    ensures var y := Do(x, ExitTask(status)).sched;
            y.current.None? && pid in y.states && y.states[pid] == S.Exited(status)
    ensures var y := Do(x, YieldTask).sched; y.current.None? && y.runnable == x.sched.runnable + [pid]
    ensures BlocksFor(x, Do(x, WaitElsewhere(key)), pid, S.Elsewhere(key))
  {
    hide Awake, WakeAll, EndWaits, Named, Step;
    OrderedOf(x);
    WakeAllOnly(x.sched, EndWaits(x.world.arena, Named(TableOf(x.world, pid).entries)));
  }

  /** Parking concerns just the tasks of the queue: such a task waits for its host, and is queued no more. The host's
      choice runs such a task at once when none runs. Otherwise both change nothing. */
  lemma HostActsExactly(x: System, pid: Pid, key: nat)
    requires Awake(x)
    ensures var y := Do(x, ParkTask(pid, key)).sched;
            if pid in x.sched.runnable then
              && pid !in y.runnable && y.blocked == x.sched.blocked + [pid] && y.current == x.sched.current
              && y.states == x.sched.states[pid := S.Waiting(S.Elsewhere(key))]
            else y == x.sched
    ensures var y := Do(x, SelectTask(pid)).sched;
            if pid in x.sched.runnable && x.sched.current.None? then
              && pid !in y.runnable && y.blocked == x.sched.blocked && y.current == Some(pid)
              && y.states == x.sched.states[pid := S.Running]
            else y == x.sched
  {
    hide Sound, NoneStranded, S.NoRepeats, S.Without;
    S.WithoutExactly(x.sched.runnable, pid);
  }

  /** Job control and the scheduler's own moves touch the scheduler alone. */
  lemma SchedulingIs(x: System, pid: Pid)
    ensures Do(x, StopTask(pid)) == x.(sched := S.Stop(x.sched, pid))
    ensures Do(x, ResumeTask(pid)) == x.(sched := S.Resume(x.sched, pid))
    ensures Do(x, WakeTask(pid)) == x.(sched := S.Wake(x.sched, pid))
    ensures Do(x, ReapTask(pid)) == x.(sched := S.Reap(x.sched, pid))
    ensures Do(x, DispatchTask) == x.(sched := S.Dispatch(x.sched))
  {
    hide S.Stop, S.Resume, S.Wake, S.Reap, S.Dispatch;
  }

  /** A fork succeeds exactly when the number is free, the table can be inherited and there is room for a task:
      then the child has the parent's table and is last in the queue. Otherwise no task and no table changes. */
  lemma ForkExactly(x: System, pid: Pid, child: Pid)
    requires x.sched.current == Some(pid)
    ensures var y, a, t := Do(x, ForkTask(child)), x.world.arena, TableOf(x.world, pid);
            if child !in x.world.tables && Fork(a, t).1.Success? && child !in x.sched.states &&
               |x.sched.states| < S.MAX_TASKS then
              && y.sched.runnable == x.sched.runnable + [child] && y.sched.states == x.sched.states[child := S.Runnable]
              && y.sched.current == Some(pid) && y.world.tables == x.world.tables[child := t]
            else y.sched == x.sched && y.world.tables == x.world.tables
  {
    hide Fork, CloseAll;
  }

  // ----- Other tasks -----

  /** No task changes but those that waited for a descriptor condition, and they are only woken. */
  ghost predicate OnlyWoken(s: S.Scheduler, t: S.Scheduler) {
    forall pid :: pid in s.states && Some(pid) != s.current ==> pid in t.states && SameOrWoken(s, t, pid)
  }

  ghost predicate SameOrWoken(s: S.Scheduler, t: S.Scheduler, pid: Pid)
    requires pid in s.states && pid in t.states
  {
    || t.states[pid] == s.states[pid]
    || (t.states[pid] == Awakened(s.states[pid]) && exists wait :: S.WaitsFor(s, pid, wait))
  }

  lemma WakeWaitersOnly(s: S.Scheduler, wait: Wait)
    requires S.Ordered(s)
    ensures OnlyWoken(s, S.WakeWaiters(s, wait)) && S.Ordered(S.WakeWaiters(s, wait))
    ensures S.WakeWaiters(s, wait).current == s.current
  {
    hide S.Ordered, S.WakeWaiters, S.Accepts, Before;
    WakeWaitersInOrder(s, wait);
    S.WakeWaitersExactly(s, wait);
  }

  lemma WokenTwice(s: S.Scheduler, t: S.Scheduler, u: S.Scheduler)
    requires OnlyWoken(s, t) && OnlyWoken(t, u) && t.current == s.current
    ensures OnlyWoken(s, u)
  {
    hide S.Accepts;
    forall pid | pid in s.states && Some(pid) != s.current
      ensures pid in u.states && SameOrWoken(s, u, pid)
    {
      assert SameOrWoken(s, t, pid) && SameOrWoken(t, u, pid);
      if t.states[pid] == s.states[pid] && u.states[pid] != t.states[pid] {
        var wait :| S.WaitsFor(t, pid, wait);
        assert S.WaitsFor(s, pid, wait);
      }
    }
  }

  lemma {:induction false} WakeAllOnly(s: S.Scheduler, waits: seq<Wait>)
    requires S.Ordered(s)
    ensures OnlyWoken(s, WakeAll(s, waits)) && WakeAll(s, waits).current == s.current
    decreases |waits|
  {
    hide S.Ordered, S.WakeWaiters, S.WaitsFor;
    if waits != [] {
      WakeWaitersOnly(s, waits[0]);
      WakeAllOnly(S.WakeWaiters(s, waits[0]), waits[1..]);
      WokenTwice(s, S.WakeWaiters(s, waits[0]), WakeAll(s, waits));
    }
  }

  lemma ReadOnly(x: System, id: Id, maximum: nat)
    requires S.Ordered(x.sched)
    ensures OnlyWoken(x.sched, Read1(x, id, maximum).sched)
  {
    hide S.WakeWaiters, S.Ordered, S.WaitsFor;
    if id in x.world.arena.descriptions && x.world.arena.descriptions[id].description.PipeReader? {
      WakeWaitersOnly(x.sched, PipeWritable(x.world.arena.descriptions[id].description.pipe));
    }
  }

  lemma WriteOnly(x: System, id: Id, bytes: seq<Byte>)
    requires S.Ordered(x.sched)
    ensures OnlyWoken(x.sched, Write1(x, id, bytes).sched)
  {
    hide S.WakeWaiters, S.Ordered, S.WaitsFor;
    if id in x.world.arena.descriptions && x.world.arena.descriptions[id].description.PipeWriter? {
      WakeWaitersOnly(x.sched, PipeReadable(x.world.arena.descriptions[id].description.pipe));
    }
  }

  lemma CallByOnly(x: System, call: Call)
    requires S.Ordered(x.sched) && x.sched.current.Some?
    ensures OnlyWoken(x.sched, DoAs(x, x.sched.current.value, call).sched)
  {
    hide S.WakeWaiters, WakeAll, EndWaits, Step, WithPipe, PollWaits, Read, Write, Duplicate, Fork, CloseAll, Named;
    hide Flagged, S.Ordered, S.WaitsFor;
    var t := TableOf(x.world, x.sched.current.value);
    match call
    case ReadFd(fd, maximum) =>
      if fd in t.entries {
        ReadOnly(x, t.entries[fd], maximum);
      }
    case WriteFd(fd, bytes) =>
      if fd in t.entries {
        WriteOnly(x, t.entries[fd], bytes);
      }
    case CloseFd(fd) =>
      if fd in t.entries {
        WakeAllOnly(x.sched, EndWaits(x.world.arena, [t.entries[fd]]));
      }
    case DupFd(source, destination) =>
      WakeAllOnly(x.sched, EndWaits(x.world.arena, if destination in t.entries then [t.entries[destination]] else []));
    case ExecImage => WakeAllOnly(x.sched, EndWaits(x.world.arena, Named(Flagged(t))));
    case ExitTask(_) => WakeAllOnly(x.sched, EndWaits(x.world.arena, Named(t.entries)));
    case _ =>
  }

  /** Whatever the running task or the host does to descriptors, a task that does not run keeps its state, or it
      waited for a descriptor condition and is now runnable, or is so once it is continued. */
  lemma OthersOnlyWoken(x: System, call: Call)
    requires Awake(x) && !IsScheduling(call)
    ensures OnlyWoken(x.sched, Do(x, call).sched)
  {
    hide Awake, Do, OnlyWoken, S.Ordered;
    OrderedOf(x);
    DoIs(x, call);
    SameOnly(x.sched);
    if call.FeedInput? {
      FeedOnly(x, call.id, call.bytes);
    } else if call.CloseInput? {
      FeedOnly(x, call.id, []);
    } else if x.sched.current.Some? {
      CallByOnly(x, call);
    }
  }

  lemma DoIs(x: System, call: Call)
    requires !IsScheduling(call)
    ensures Do(x, call) == if call.FeedInput? then Feed(x, call.id, call.bytes)
                           else if call.CloseInput? then ShutInput(x, call.id)
                           else if x.sched.current.None? then x
                           else DoAs(x, x.sched.current.value, call)
  {
    hide Feed, ShutInput, DoAs;
  }

  lemma SameOnly(s: S.Scheduler)
    ensures OnlyWoken(s, s)
  {
  }

  lemma FeedOnly(x: System, id: Id, bytes: seq<Byte>)
    requires S.Ordered(x.sched)
    ensures OnlyWoken(x.sched, Feed(x, id, bytes).sched) && OnlyWoken(x.sched, ShutInput(x, id).sched)
  {
    hide S.WakeWaiters, S.Ordered, S.WaitsFor, OnlyWoken;
    SameOnly(x.sched);
    WakeWaitersOnly(x.sched, InputReadable(id));
  }
}
