// The machine's descriptor calls in their own form: the running task's table, the arena and the
// scheduler, updated in place. Each method leaves them as the step of the run model does.

module MachineObject {
  import opened Basics
  import D = Descriptors
  import O = DescriptorObjects
  import R = DescriptorRuns
  import S = Scheduling
  import W = Wakeups

  class TaskScheduler {
    var states: map<S.Pid, S.TaskState>
    var runnable: seq<S.Pid>
    var blocked: seq<S.Pid>
    var current: Option<S.Pid>

    constructor (root: S.Pid)
      ensures View() == S.Scheduler(map[root := S.Running], [], [], Some(root))
    {
      states, runnable, blocked, current := map[root := S.Running], [], [], Some(root);
    }

    ghost function View(): S.Scheduler
      reads this
    {
      S.Scheduler(states, runnable, blocked, current)
    }

    method Spawn(pid: S.Pid) returns (accepted: bool)
      modifies this
      ensures (View(), accepted) == S.Spawn(old(View()), pid)
    {
      if pid in states || |states| >= S.MAX_TASKS {
        return false;
      }
      states := states[pid := S.Runnable];
      runnable := runnable + [pid];
      return true;
    }

    method BlockCurrent(reason: S.Reason)
      modifies this
      ensures View() == S.Block(old(View()), reason)
    {
      if current.Some? {
        var pid := current.value;
        current := None;
        states := states[pid := S.Waiting(reason)];
        blocked := blocked + [pid];
      }
    }

    method ExitCurrent(status: int)
      modifies this
      ensures View() == S.Exit(old(View()), status)
    {
      if current.Some? {
        states := states[current.value := S.Exited(status)];
        current := None;
      }
    }

    method Dispatch()
      modifies this
      ensures View() == S.Dispatch(old(View()))
    {
      if current.Some? || runnable == [] {
        return;
      }
      var pid := runnable[0];
      runnable := runnable[1..];
      if pid in states && states[pid] == S.Runnable {
        states := states[pid := S.Running];
        current := Some(pid);
      }
    }

    /** A queue without one task. */
    static method Removed(queue: seq<S.Pid>, pid: S.Pid) returns (kept: seq<S.Pid>)
      ensures kept == S.Without(queue, pid)
    {
      hide S.Without;
      kept := [];
      var i := 0;
      WithoutWhole(queue, pid);
      while i < |queue|
        invariant i <= |queue| && kept + S.Without(queue[i..], pid) == S.Without(queue, pid)
      {
        WithoutStep(queue, i, pid);
        if queue[i] != pid {
          kept := kept + [queue[i]];
        }
        i := i + 1;
      }
    }

    method Wake(pid: S.Pid)
      modifies this
      ensures View() == S.Wake(old(View()), pid)
    {
      hide S.Without;
      if pid !in states {
        return;
      }
      match states[pid] {
        case Waiting(_) =>
          states := states[pid := S.Runnable];
          blocked := Removed(blocked, pid);
          runnable := runnable + [pid];
        case Stopped(ToWait(_)) =>
          blocked := Removed(blocked, pid);
          states := states[pid := S.Stopped(S.ToRun)];
        case _ =>
      }
    }

    method YieldCurrent()
      modifies this
      ensures View() == S.Yield(old(View()))
    {
      if current.Some? {
        var pid := current.value;
        current := None;
        states := states[pid := S.Runnable];
        runnable := runnable + [pid];
      }
    }

    method Stop(pid: S.Pid)
      modifies this
      ensures View() == S.Stop(old(View()), pid)
    {
      hide S.Without;
      if pid !in states {
        return;
      }
      match states[pid] {
        case Runnable =>
          runnable := Removed(runnable, pid);
          states := states[pid := S.Stopped(S.ToRun)];
        case Running =>
          if current == Some(pid) {
            current := None;
            states := states[pid := S.Stopped(S.ToRun)];
          }
        case Waiting(reason) =>
          states := states[pid := S.Stopped(S.ToWait(reason))];
        case _ =>
      }
    }

    method ContinueTask(pid: S.Pid)
      modifies this
      ensures View() == S.Resume(old(View()), pid)
    {
      if pid !in states {
        return;
      }
      match states[pid] {
        case Stopped(ToRun) =>
          states := states[pid := S.Runnable];
          runnable := runnable + [pid];
        case Stopped(ToWait(reason)) =>
          states := states[pid := S.Waiting(reason)];
        case _ =>
      }
    }

    method ParkRunnable(pid: S.Pid, reason: S.Reason)
      modifies this
      ensures View() == S.Park(old(View()), pid, reason)
    {
      hide S.Without;
      if pid in states && states[pid] == S.Runnable {
        runnable := Removed(runnable, pid);
        states := states[pid := S.Waiting(reason)];
        blocked := blocked + [pid];
      }
    }

    method DispatchPid(pid: S.Pid)
      modifies this
      ensures View() == S.Select(old(View()), pid)
    {
      hide S.Without;
      if current.None? && pid in states && states[pid] == S.Runnable {
        runnable := Removed(runnable, pid);
        states := states[pid := S.Running];
        current := Some(pid);
      }
    }

    /** The waiters of a condition, in queue order. */
    method Waiters(wait: D.Wait) returns (waiting: seq<S.Pid>)
      ensures waiting == S.Waiters(View(), blocked, wait)
    {
      hide S.Accepts, S.Waiters;
      waiting := [];
      var i := 0;
      WaitersWhole(View(), blocked, wait);
      while i < |blocked|
        invariant i <= |blocked| && waiting + S.Waiters(View(), blocked[i..], wait) == S.Waiters(View(), blocked, wait)
      {
        var pid := blocked[i];
        WaitersStep(View(), blocked, i, wait);
        if pid in states && S.ReasonOf(states[pid]).Some? && S.Accepts(S.ReasonOf(states[pid]).value, wait) {
          waiting := waiting + [pid];
        }
        i := i + 1;
      }
    }

    /** Collect the waiters of a condition, then wake each. */
    method WakeWaiters(wait: D.Wait)
      modifies this
      ensures View() == S.WakeWaiters(old(View()), wait)
    {
      hide S.Wake, S.Accepts, S.Waiters;
      var waiting := Waiters(wait);
      var i := 0;
      assert waiting[0..] == waiting;
      while i < |waiting|
        invariant i <= |waiting| && S.WakeEach(View(), waiting[i..]) == S.WakeEach(old(View()), waiting)
      {
        assert waiting[i..][1..] == waiting[i + 1..];
        Wake(waiting[i]);
        i := i + 1;
      }
    }

    /** Wake the waiters of several conditions, one after the other. */
    method WakeAll(waits: seq<D.Wait>)
      modifies this
      ensures View() == W.WakeAll(old(View()), waits)
    {
      hide S.WakeWaiters;
      var i := 0;
      while i < |waits|
        invariant i <= |waits| && W.WakeAll(View(), waits[i..]) == W.WakeAll(old(View()), waits)
      {
        assert waits[i..][1..] == waits[i + 1..];
        WakeWaiters(waits[i]);
        i := i + 1;
      }
    }
  }

  lemma WithoutWhole(queue: seq<S.Pid>, pid: S.Pid)
    ensures [] + S.Without(queue[0..], pid) == S.Without(queue, pid) && S.Without(queue[|queue|..], pid) == []
  {
    assert queue[0..] == queue;
  }

  lemma WithoutStep(queue: seq<S.Pid>, i: nat, pid: S.Pid)
    requires i < |queue|
    ensures S.Without(queue[i..], pid) == (if queue[i] != pid then [queue[i]] else []) + S.Without(queue[i + 1..], pid)
  {
    assert queue[i..][1..] == queue[i + 1..];
  }

  lemma WaitersWhole(s: S.Scheduler, queue: seq<S.Pid>, wait: D.Wait)
    ensures [] + S.Waiters(s, queue[0..], wait) == S.Waiters(s, queue, wait)
    ensures S.Waiters(s, queue[|queue|..], wait) == []
  {
    hide S.Accepts;
    assert queue[0..] == queue;
  }

  lemma WaitersStep(s: S.Scheduler, queue: seq<S.Pid>, i: nat, wait: D.Wait)
    requires i < |queue|
    ensures S.Waiters(s, queue[i..], wait) ==
            (if S.WaitsFor(s, queue[i], wait) then [queue[i]] else []) + S.Waiters(s, queue[i + 1..], wait)
  {
    hide S.Accepts;
    assert queue[i..][1..] == queue[i + 1..];
  }

  /** The running task's side of the machine. */
  class Machine {
    const arena: O.DescriptorArena
    const fds: O.FdTable
    const scheduler: TaskScheduler

    constructor (arena: O.DescriptorArena, fds: O.FdTable, scheduler: TaskScheduler)
      ensures this.arena == arena && this.fds == fds && this.scheduler == scheduler
    {
      this.arena, this.fds, this.scheduler := arena, fds, scheduler;
    }

    /** The arena, the scheduler and the table are those of a system and of one of its tasks. */
    ghost predicate Shows(x: W.System, pid: S.Pid)
      reads arena, scheduler, fds
    {
      arena.View() == x.world.arena && scheduler.View() == x.sched && fds.View() == R.TableOf(x.world, pid)
    }

    /** A call leaves the machine as the run model's step does, and strands no task. */
    ghost predicate Did(x: W.System, pid: S.Pid, call: W.Call)
      reads arena, scheduler, fds
    {
      Shows(W.Do(x, call), pid) && (W.Awake(x) ==> W.Awake(W.Do(x, call)))
    }

    method ReadFd(fd: D.Fd, maximum: nat, ghost x: W.System, ghost pid: S.Pid)
      returns (r: D.Outcome<D.Poll<seq<Byte>>>)
      requires Shows(x, pid) && x.sched.current == Some(pid)
      modifies arena, scheduler
      ensures Did(x, pid, W.ReadFd(fd, maximum))
      ensures r ==
              if fd in fds.entries then D.Read(x.world.arena, fds.entries[fd], maximum).1 else D.Failure(D.InvalidFd)
    {
      hide S.WakeWaiters, S.Block, W.Awake;
      StaysAwake(x, W.ReadFd(fd, maximum));
      if fd !in fds.entries {
        return D.Failure(D.InvalidFd);
      }
      var id := fds.entries[fd];
      var known := id in arena.descriptions;
      var end := if known then arena.descriptions[id].description else D.Null(true, true);
      r := arena.Read(id, maximum);
      if r.Success? {
        match r.value {
          case Blocked(wait) => scheduler.BlockCurrent(S.Io(wait));
          case Ready(_) =>
            if end.PipeReader? {
              scheduler.WakeWaiters(D.PipeWritable(end.pipe));
            }
        }
      }
    }

    method WriteFd(fd: D.Fd, bytes: seq<Byte>, ghost x: W.System, ghost pid: S.Pid)
      returns (r: D.Outcome<D.Poll<nat>>)
      requires Shows(x, pid) && x.sched.current == Some(pid)
      modifies arena, scheduler
      ensures Did(x, pid, W.WriteFd(fd, bytes))
      ensures r ==
              if fd in fds.entries then D.Write(x.world.arena, fds.entries[fd], bytes).1 else D.Failure(D.InvalidFd)
    {
      hide S.WakeWaiters, S.Block, W.Awake;
      StaysAwake(x, W.WriteFd(fd, bytes));
      if fd !in fds.entries {
        return D.Failure(D.InvalidFd);
      }
      var id := fds.entries[fd];
      var known := id in arena.descriptions;
      var end := if known then arena.descriptions[id].description else D.Null(true, true);
      r := arena.Write(id, bytes);
      if r.Success? {
        match r.value {
          case Blocked(wait) => scheduler.BlockCurrent(S.Io(wait));
          case Ready(_) =>
            if end.PipeWriter? {
              scheduler.WakeWaiters(D.PipeReadable(end.pipe));
            }
        }
      }
    }

    /** The condition of a description that is a pipe end. */
    method EndpointWait(id: D.Id) returns (waits: seq<D.Wait>)
      ensures waits == OwnWaits(arena.View(), id)
    {
      if id in arena.descriptions && W.EndWait(arena.descriptions[id].description).Some? {
        return [W.EndWait(arena.descriptions[id].description).value];
      }
      return [];
    }

    /** The conditions of the pipe ends among some entries, in the order of their numbers. */
    method EndpointWaits(entries: map<D.Fd, D.Id>) returns (waits: seq<D.Wait>)
      ensures waits == W.EndWaits(arena.View(), D.Named(entries))
    {
      hide D.Named, D.Least, W.EndWaits, OwnWaits;
      waits := [];
      var rest := entries;
      while rest != map[]
        invariant waits + W.EndWaits(arena.View(), D.Named(rest)) == W.EndWaits(arena.View(), D.Named(entries))
        decreases |rest|
      {
        var fd := D.Least(rest);
        EndpointStep(arena.View(), rest);
        var own := EndpointWait(rest[fd]);
        waits := waits + own;
        rest := rest - {fd};
      }
      NoEndpoints(arena.View());
    }

    /** Close a descriptor and wake whoever waits for the other end of its pipe. */
    method CloseFd(fd: D.Fd, ghost x: W.System, ghost pid: S.Pid) returns (r: D.Outcome<()>)
      requires Shows(x, pid) && x.sched.current == Some(pid)
      modifies arena, fds, scheduler
      ensures Did(x, pid, W.CloseFd(fd)) && r == D.Close(x.world.arena, R.TableOf(x.world, pid), fd).2
    {
      hide D.Close, D.Named, W.EndWaits, W.WakeAll, W.Awake, W.Do;
      StaysAwake(x, W.CloseFd(fd));
      CloseStep(x, pid, fd);
      if fd in fds.entries {
        OneNamed(fd, fds.entries[fd]);
        var waits := EndpointWaits(map[fd := fds.entries[fd]]);
        r := fds.Close(fd, arena);
        scheduler.WakeAll(waits);
      } else {
        r := fds.Close(fd, arena);
      }
    }

    /** Close what is flagged for exec, then wake the waiters of the pipe ends among it. */
    method ResetForExec(ghost x: W.System, ghost pid: S.Pid)
      requires Shows(x, pid) && x.sched.current == Some(pid)
      modifies arena, fds, scheduler
      ensures Did(x, pid, W.ExecImage)
    {
      hide D.CloseForExec, D.Named, W.EndWaits, D.Flagged, W.WakeAll, W.Awake, W.Do;
      StaysAwake(x, W.ExecImage);
      ExecStep(x, pid);
      var waits := EndpointWaits(D.Flagged(D.Table(fds.entries, fds.closeOnExec)));
      fds.CloseForExec(arena);
      scheduler.WakeAll(waits);
    }

    /** Close everything, wake the waiters of the pipe ends among it, and end the task. */
    method FinishTask(status: int, ghost x: W.System, ghost pid: S.Pid)
      requires Shows(x, pid) && x.sched.current == Some(pid)
      modifies arena, fds, scheduler
      ensures Did(x, pid, W.ExitTask(status))
    {
      hide D.CloseAll, D.Named, W.EndWaits, W.WakeAll, W.Awake, W.Do, S.Exit;
      StaysAwake(x, W.ExitTask(status));
      ExitStep(x, pid, status);
      var waits := EndpointWaits(fds.entries);
      fds.CloseAll(arena);
      scheduler.WakeAll(waits);
      scheduler.ExitCurrent(status);
    }
  }

  lemma StaysAwake(x: W.System, call: W.Call)
    ensures W.Awake(x) ==> W.Awake(W.Do(x, call))
  {
    hide W.Awake, W.Do;
    if W.Awake(x) {
      W.CallAwake(x, call);
    }
  }

  lemma CloseStep(x: W.System, pid: S.Pid, fd: D.Fd)
    requires x.sched.current == Some(pid)
    ensures var y, t := W.Do(x, W.CloseFd(fd)), R.TableOf(x.world, pid);
            && (y.world.arena, R.TableOf(y.world, pid)) == (D.Close(x.world.arena, t, fd).0,
                                                            D.Close(x.world.arena, t, fd).1)
            && y.sched ==
               if fd in t.entries then W.WakeAll(x.sched, W.EndWaits(x.world.arena, [t.entries[fd]])) else x.sched
  {
    hide D.Release, W.EndWaits, W.WakeAll;
  }

  lemma ExecStep(x: W.System, pid: S.Pid)
    requires x.sched.current == Some(pid)
    ensures var y, t := W.Do(x, W.ExecImage), R.TableOf(x.world, pid);
            && (y.world.arena, R.TableOf(y.world, pid)) == D.CloseForExec(x.world.arena, t)
            && y.sched == W.WakeAll(x.sched, W.EndWaits(x.world.arena, D.Named(D.Flagged(t))))
  {
    hide D.CloseForExec, D.Named, D.Flagged, W.EndWaits, W.WakeAll;
  }

  lemma ExitStep(x: W.System, pid: S.Pid, status: int)
    requires x.sched.current == Some(pid)
    ensures var y, t := W.Do(x, W.ExitTask(status)), R.TableOf(x.world, pid);
            && (y.world.arena, R.TableOf(y.world, pid)) == D.CloseAll(x.world.arena, t)
            && y.sched == S.Exit(W.WakeAll(x.sched, W.EndWaits(x.world.arena, D.Named(t.entries))), status)
  {
    hide D.ReleaseAll, D.Named, W.EndWaits, W.WakeAll, S.Exit;
  }

  /** The condition of one description, if it is a pipe end. */
  ghost function OwnWaits(a: D.Arena, id: D.Id): seq<D.Wait> {
    if id in a.descriptions && W.EndWait(a.descriptions[id].description).Some? then
      [W.EndWait(a.descriptions[id].description).value]
    else []
  }

  lemma EndpointStep(a: D.Arena, rest: map<D.Fd, D.Id>)
    requires rest != map[]
    ensures var fd := D.Least(rest);
            && |rest - {fd}| < |rest|
            && W.EndWaits(a, D.Named(rest)) == OwnWaits(a, rest[fd]) + W.EndWaits(a, D.Named(rest - {fd}))
  {
    var fd := D.Least(rest);
    O.NamedStep(a, rest);
    assert D.Named(rest) == [rest[fd]] + D.Named(rest - {fd});
    assert D.Named(rest)[1..] == D.Named(rest - {fd});
  }

  lemma NoEndpoints(a: D.Arena)
    ensures W.EndWaits(a, D.Named(map[])) == []
  {
    O.NoneLeft(a);
    assert D.Named(map[]) == [];
  }

  lemma OneNamed(fd: D.Fd, id: D.Id)
    ensures D.Named(map[fd := id]) == [id]
  {
    var m := map[fd := id];
    assert fd in m;
    assert D.Least(m) == fd;
    assert m - {fd} == map[];
  }
}
