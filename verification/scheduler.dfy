// The cooperative scheduler: task states and the two queues that must agree with them.

module Scheduling {
  import opened Basics
  import opened Descriptors

  type Pid = nat

  const MAX_TASKS: nat := 1024

  /** What a task waits for: one descriptor condition, something else, or any of several. */
  datatype Reason = Io(wait: Wait) | Elsewhere(key: nat) | AnyOf(reasons: seq<Reason>)

  datatype Saved = ToRun | ToWait(reason: Reason)

  datatype TaskState = Runnable | Running | Waiting(reason: Reason) | Stopped(saved: Saved) | Exited(status: int)

  datatype Scheduler = Scheduler(states: map<Pid, TaskState>, runnable: seq<Pid>, blocked: seq<Pid>,
                                 current: Option<Pid>)

  predicate Accepts(reason: Reason, wait: Wait)
    decreases reason
  {
    match reason
    case Io(w) => w == wait
    case Elsewhere(_) => false
    case AnyOf(reasons) => exists i | 0 <= i < |reasons| :: Accepts(reasons[i], wait)
  }

  /** The reason a task waits for, also while it is stopped. */
  function ReasonOf(state: TaskState): Option<Reason> {
    match state
    case Waiting(reason) => Some(reason)
    case Stopped(ToWait(reason)) => Some(reason)
    case _ => None
  }

  function Without(queue: seq<Pid>, pid: Pid): seq<Pid> {
    if queue == [] then [] else (if queue[0] == pid then [] else [queue[0]]) + Without(queue[1..], pid)
  }

  function Spawn(s: Scheduler, pid: Pid): (Scheduler, bool) {
    if pid in s.states || |s.states| >= MAX_TASKS then (s, false)
    else (s.(states := s.states[pid := Runnable], runnable := s.runnable + [pid]), true)
  }

  function Yield(s: Scheduler): Scheduler {
    match s.current
    case None => s
    case Some(pid) => s.(states := s.states[pid := Runnable], runnable := s.runnable + [pid], current := None)
  }

  function Block(s: Scheduler, reason: Reason): Scheduler {
    match s.current
    case None => s
    case Some(pid) => s.(states := s.states[pid := Waiting(reason)], blocked := s.blocked + [pid], current := None)
  }

  function Exit(s: Scheduler, status: int): Scheduler {
    match s.current
    case None => s
    case Some(pid) => s.(states := s.states[pid := Exited(status)], current := None)
  }

  /** Make a waiting task runnable; a stopped one becomes runnable once it is continued. */
  function Wake(s: Scheduler, pid: Pid): Scheduler {
    if pid !in s.states then s
    else
      match s.states[pid]
      case Waiting(_) => s.(states := s.states[pid := Runnable], blocked := Without(s.blocked, pid),
                            runnable := s.runnable + [pid])
      case Stopped(ToWait(_)) => s.(states := s.states[pid := Stopped(ToRun)], blocked := Without(s.blocked, pid))
      case _ => s
  }

  function Stop(s: Scheduler, pid: Pid): Scheduler {
    if pid !in s.states then s
    else
      match s.states[pid]
      case Runnable => s.(states := s.states[pid := Stopped(ToRun)], runnable := Without(s.runnable, pid))
      case Running =>
        if s.current == Some(pid) then s.(states := s.states[pid := Stopped(ToRun)], current := None) else s
      case Waiting(reason) => s.(states := s.states[pid := Stopped(ToWait(reason))])
      case _ => s
  }

  function Resume(s: Scheduler, pid: Pid): Scheduler {
    if pid !in s.states then s
    else
      match s.states[pid]
      case Stopped(ToRun) => s.(states := s.states[pid := Runnable], runnable := s.runnable + [pid])
      case Stopped(ToWait(reason)) => s.(states := s.states[pid := Waiting(reason)])
      case _ => s
  }

  /** Take a runnable task out of the queue until its host supplies something to do. */
  function Park(s: Scheduler, pid: Pid, reason: Reason): Scheduler {
    if pid !in s.states || s.states[pid] != Runnable then s
    else s.(states := s.states[pid := Waiting(reason)], runnable := Without(s.runnable, pid),
            blocked := s.blocked + [pid])
  }

  /** Run a runnable task that the host names, ahead of the queue. */
  function Select(s: Scheduler, pid: Pid): Scheduler {
    if s.current.Some? || pid !in s.states || s.states[pid] != Runnable then s
    else s.(states := s.states[pid := Running], runnable := Without(s.runnable, pid), current := Some(pid))
  }

  /** The tasks of a queue that wait for a condition, in queue order. */
  function Waiters(s: Scheduler, queue: seq<Pid>, wait: Wait): seq<Pid> {
    if queue == [] then []
    else
      var rest := Waiters(s, queue[1..], wait);
      if queue[0] in s.states && ReasonOf(s.states[queue[0]]).Some? && Accepts(ReasonOf(s.states[queue[0]]).value, wait)
      then [queue[0]] + rest else rest
  }

  function WakeEach(s: Scheduler, pids: seq<Pid>): Scheduler
    decreases |pids|
  {
    if pids == [] then s else WakeEach(Wake(s, pids[0]), pids[1..])
  }

  function WakeWaiters(s: Scheduler, wait: Wait): Scheduler {
    WakeEach(s, Waiters(s, s.blocked, wait))
  }

  /** Run the first runnable task; nothing when one is running or none is runnable. */
  function Dispatch(s: Scheduler): Scheduler {
    if s.current.Some? || s.runnable == [] then s
    else
      var pid := s.runnable[0];
      if pid !in s.states || s.states[pid] != Runnable then s.(runnable := s.runnable[1..])
      else s.(states := s.states[pid := Running], runnable := s.runnable[1..], current := Some(pid))
  }

  function Reap(s: Scheduler, pid: Pid): Scheduler {
    if pid in s.states && s.states[pid].Exited? then s.(states := s.states - {pid}) else s
  }

  function DiscardRunnable(s: Scheduler, pid: Pid): Scheduler {
    if pid in s.states && s.states[pid] == Runnable then s.(states := s.states - {pid},
                                                            runnable := Without(s.runnable, pid)) else s
  }

  // ----- What every operation keeps -----

  predicate NoRepeats(queue: seq<Pid>) {
    forall i, j :: 0 <= i < j < |queue| ==> queue[i] != queue[j]
  }

  /** The blocked queue lists exactly the waiting tasks, the runnable queue exactly the runnable ones,
      each once, and the current task is the one that runs. */
  ghost predicate Ordered(s: Scheduler) {
    && NoRepeats(s.runnable) && NoRepeats(s.blocked)
    && (forall pid :: pid in s.blocked <==> pid in s.states && ReasonOf(s.states[pid]).Some?)
    && (forall pid :: pid in s.runnable <==> pid in s.states && s.states[pid] == Runnable)
    && (forall pid :: s.current == Some(pid) <==> pid in s.states && s.states[pid] == Running)
  }

  lemma {:induction false} WithoutExactly(queue: seq<Pid>, pid: Pid)
    ensures forall other :: other in Without(queue, pid) <==> other in queue && other != pid
    ensures NoRepeats(queue) ==> NoRepeats(Without(queue, pid))
  {
    if queue != [] {
      WithoutExactly(queue[1..], pid);
      assert queue == [queue[0]] + queue[1..];
      assert NoRepeats(queue) ==> NoRepeats(queue[1..]) && queue[0] !in queue[1..];
    }
  }

  lemma AppendedOnce(queue: seq<Pid>, pid: Pid)
    requires NoRepeats(queue) && pid !in queue
    ensures NoRepeats(queue + [pid]) && forall other :: other in queue + [pid] <==> other in queue || other == pid
  {
  }

  lemma TailOnce(queue: seq<Pid>)
    requires NoRepeats(queue) && queue != []
    ensures NoRepeats(queue[1..]) && forall other :: other in queue[1..] <==> other in queue && other != queue[0]
  {
    assert queue == [queue[0]] + queue[1..];
  }

  lemma SpawnOrdered(s: Scheduler, pid: Pid)
    requires Ordered(s)
    ensures Ordered(Spawn(s, pid).0)
  {
    hide NoRepeats;
    if pid !in s.states {
      AppendedOnce(s.runnable, pid);
    }
  }

  lemma YieldOrdered(s: Scheduler)
    requires Ordered(s)
    ensures Ordered(Yield(s))
  {
    hide NoRepeats;
    if s.current.Some? {
      AppendedOnce(s.runnable, s.current.value);
    }
  }

  lemma BlockOrdered(s: Scheduler, reason: Reason)
    requires Ordered(s)
    ensures Ordered(Block(s, reason))
  {
    hide NoRepeats;
    if s.current.Some? {
      AppendedOnce(s.blocked, s.current.value);
    }
  }

  lemma ExitOrdered(s: Scheduler, status: int)
    requires Ordered(s)
    ensures Ordered(Exit(s, status))
  {
    hide NoRepeats;
  }

  lemma WakeOrdered(s: Scheduler, pid: Pid)
    requires Ordered(s)
    ensures Ordered(Wake(s, pid))
  {
    hide NoRepeats, Without;
    if pid in s.states && ReasonOf(s.states[pid]).Some? {
      WithoutExactly(s.blocked, pid);
      if s.states[pid].Waiting? {
        AppendedOnce(s.runnable, pid);
      }
    }
  }

  lemma StopOrdered(s: Scheduler, pid: Pid)
    requires Ordered(s)
    ensures Ordered(Stop(s, pid))
  {
    hide NoRepeats, Without;
    WithoutExactly(s.runnable, pid);
  }

  lemma ResumeOrdered(s: Scheduler, pid: Pid)
    requires Ordered(s)
    ensures Ordered(Resume(s, pid))
  {
    hide NoRepeats;
    if pid in s.states && s.states[pid] == Stopped(ToRun) {
      AppendedOnce(s.runnable, pid);
    }
  }

  lemma DispatchOrdered(s: Scheduler)
    requires Ordered(s)
    ensures Ordered(Dispatch(s))
    ensures s.current.None? && s.runnable != [] ==> Dispatch(s).current == Some(s.runnable[0])
  {
    hide NoRepeats;
    if s.runnable != [] {
      assert s.runnable[0] in s.runnable;
      TailOnce(s.runnable);
    }
  }

  lemma ParkOrdered(s: Scheduler, pid: Pid, reason: Reason)
    requires Ordered(s)
    ensures Ordered(Park(s, pid, reason))
  {
    hide NoRepeats, Without;
    WithoutExactly(s.runnable, pid);
    if pid in s.states && s.states[pid] == Runnable {
      AppendedOnce(s.blocked, pid);
    }
  }

  lemma SelectOrdered(s: Scheduler, pid: Pid)
    requires Ordered(s)
    ensures Ordered(Select(s, pid))
  {
    hide NoRepeats, Without;
    WithoutExactly(s.runnable, pid);
  }

  lemma ReapOrdered(s: Scheduler, pid: Pid)
    requires Ordered(s)
    ensures Ordered(Reap(s, pid))
  {
    hide NoRepeats;
  }

  lemma DiscardOrdered(s: Scheduler, pid: Pid)
    requires Ordered(s)
    ensures Ordered(DiscardRunnable(s, pid))
  {
    hide NoRepeats, Without;
    WithoutExactly(s.runnable, pid);
  }

  // ----- Waking the waiters of a condition -----

  /** A task waits for a condition. */
  predicate WaitsFor(s: Scheduler, pid: Pid, wait: Wait) {
    pid in s.states && ReasonOf(s.states[pid]).Some? && Accepts(ReasonOf(s.states[pid]).value, wait)
  }

  lemma {:induction false} WaitersExactly(s: Scheduler, queue: seq<Pid>, wait: Wait)
    ensures forall pid :: pid in Waiters(s, queue, wait) <==> pid in queue && WaitsFor(s, pid, wait)
  {
    hide Accepts;
    if queue != [] {
      WaitersExactly(s, queue[1..], wait);
      assert queue == [queue[0]] + queue[1..];
    }
  }

  /** Every task of a list made runnable, every other task as it was. */
  ghost predicate Woken(s: Scheduler, t: Scheduler, pids: seq<Pid>) {
    && t.states.Keys == s.states.Keys && t.current == s.current
    && (forall pid :: pid in s.states && pid in pids ==> ReasonOf(t.states[pid]).None?)
    && (forall pid :: pid in s.states && pid !in pids ==> t.states[pid] == s.states[pid])
  }

  lemma {:induction false} WakeEachWoken(s: Scheduler, pids: seq<Pid>)
    requires Ordered(s)
    ensures Ordered(WakeEach(s, pids)) && Woken(s, WakeEach(s, pids), pids)
    decreases |pids|
  {
    hide Ordered, Without;
    if pids != [] {
      WakeOrdered(s, pids[0]);
      WakeEachWoken(Wake(s, pids[0]), pids[1..]);
      assert pids == [pids[0]] + pids[1..];
    }
  }

  /** Waking a condition leaves no task waiting for it, and touches no other task. */
  lemma WakeWaitersExactly(s: Scheduler, wait: Wait)
    requires Ordered(s)
    ensures var t := WakeWaiters(s, wait);
            && Ordered(t) && t.states.Keys == s.states.Keys && t.current == s.current
            && (forall pid :: pid in s.states && WaitsFor(s, pid, wait) ==> ReasonOf(t.states[pid]).None?)
            && (forall pid :: pid in s.states && !WaitsFor(s, pid, wait) ==> t.states[pid] == s.states[pid])
  {
    hide Accepts, NoRepeats;
    var pids := Waiters(s, s.blocked, wait);
    WaitersExactly(s, s.blocked, wait);
    WakeEachWoken(s, pids);
  }
}
