// What the scheduler does with one task, and the order in which it serves them.

module SchedulerOrder {
  import opened Basics
  import opened Descriptors
  import opened Scheduling

  /** One task is ahead of another in a queue. */
  ghost predicate Before(queue: seq<Pid>, p: Pid, q: Pid) {
    exists i, j :: 0 <= i < j < |queue| && queue[i] == p && queue[j] == q
  }

  lemma BeforeAt(queue: seq<Pid>, p: Pid, q: Pid) returns (i: nat, j: nat)
    requires Before(queue, p, q)
    ensures i < j < |queue| && queue[i] == p && queue[j] == q
  {
    i, j :| 0 <= i < j < |queue| && queue[i] == p && queue[j] == q;
  }

  lemma BeforePrefix(queue: seq<Pid>, more: seq<Pid>, p: Pid, q: Pid)
    requires queue <= more && Before(queue, p, q)
    ensures Before(more, p, q)
  {
    var i, j := BeforeAt(queue, p, q);
    assert more[i] == p && more[j] == q;
  }

  /** Who is in the queue is ahead of who joins it. */
  lemma BeforeJoined(queue: seq<Pid>, more: seq<Pid>, p: Pid, q: Pid)
    requires queue <= more && p in queue && q in more && q !in queue
    ensures Before(more, p, q)
  {
    var i :| 0 <= i < |queue| && queue[i] == p;
    var j :| 0 <= j < |more| && more[j] == q;
    assert more[i] == p && i < j;
  }

  lemma NotBefore(queue: seq<Pid>, p: Pid, q: Pid)
    requires NoRepeats(queue) && Before(queue, p, q)
    ensures p != q && !Before(queue, q, p)
  {
    var i, j := BeforeAt(queue, p, q);
  }

  lemma BeforeTail(queue: seq<Pid>, p: Pid, q: Pid)
    requires queue != [] && Before(queue, p, q) && queue[0] != p
    ensures Before(queue[1..], p, q)
  {
    var i, j := BeforeAt(queue, p, q);
    assert queue[1..][i - 1] == p && queue[1..][j - 1] == q;
  }

  lemma {:induction false} BeforeWithout(queue: seq<Pid>, gone: Pid, p: Pid, q: Pid)
    requires Before(queue, p, q) && gone != p && gone != q && p != q
    ensures Before(Without(queue, gone), p, q)
  {
    hide Without, Before;
    var i, j := BeforeAt(queue, p, q);
    var rest := queue[1..];
    WithoutUnfolds(queue, gone);
    if queue[0] == p {
      assert rest[j - 1] == q;
      WithoutExactly(rest, gone);
      BeforeJoined([p], [p] + Without(rest, gone), p, q);
    } else {
      BeforeTail(queue, p, q);
      BeforeWithout(rest, gone, p, q);
      BeforeMore(if queue[0] == gone then [] else [queue[0]], Without(rest, gone), p, q);
    }
  }

  lemma WithoutUnfolds(queue: seq<Pid>, gone: Pid)
    requires queue != []
    ensures Without(queue, gone) == (if queue[0] == gone then [] else [queue[0]]) + Without(queue[1..], gone)
  {
  }

  lemma BeforeMore(front: seq<Pid>, queue: seq<Pid>, p: Pid, q: Pid)
    requires Before(queue, p, q)
    ensures Before(front + queue, p, q)
  {
    var i, j := BeforeAt(queue, p, q);
    assert (front + queue)[|front| + i] == p && (front + queue)[|front| + j] == q;
  }

  // ----- One task -----

  /** A task whose condition has come true. */
  function Awakened(state: TaskState): TaskState {
    match state
    case Waiting(_) => Runnable
    case Stopped(ToWait(_)) => Stopped(ToRun)
    case _ => state
  }

  /** Every task but one is as before. */
  ghost predicate OnlyChanges(s: Scheduler, t: Scheduler, pid: Pid) {
    forall other :: other != pid ==>
      (other in t.states <==> other in s.states) && (other in s.states ==> t.states[other] == s.states[other])
  }

  /** A task is stopped with what it waits for; one that has exited or is stopped stays as it is. */
  lemma StopExactly(s: Scheduler, pid: Pid)
    requires Ordered(s) && pid in s.states
    ensures var was, t := s.states[pid], Stop(s, pid);
            && OnlyChanges(s, t, pid) && pid in t.states && t.current != Some(pid)
            && t.states[pid] == if was.Exited? || was.Stopped? then was
                                else Stopped(if was.Waiting? then ToWait(was.reason) else ToRun)
  {
    hide NoRepeats, Without;
  }

  /** A stopped task takes up what it was stopped in; any other stays as it is. */
  lemma ResumeExactly(s: Scheduler, pid: Pid)
    requires pid in s.states
    ensures var was, t := s.states[pid], Resume(s, pid);
            && OnlyChanges(s, t, pid) && pid in t.states && t.current == s.current
            && t.states[pid] == if !was.Stopped? then was
                                else if was.saved.ToRun? then Runnable else Waiting(was.saved.reason)
  {
  }

  /** An exited task is forgotten, any other is not. */
  lemma ReapExactly(s: Scheduler, pid: Pid)
    requires pid in s.states
    ensures OnlyChanges(s, Reap(s, pid), pid) && (pid in Reap(s, pid).states <==> !s.states[pid].Exited?)
  {
  }

  /** Stopping a task and continuing it restores its state, except that a running task has to queue again. A
      wakeup that arrives in between is not lost: the task is then runnable, and last in the queue. */
  lemma StoppedAndContinued(s: Scheduler, pid: Pid)
    requires Ordered(s) && pid in s.states && !s.states[pid].Stopped? && !s.states[pid].Exited?
    ensures var t := Resume(Stop(s, pid), pid);
            && t.states == s.states[pid := if s.states[pid].Running? then Runnable else s.states[pid]]
            && (s.states[pid].Waiting? ==> t == s)
            && (!s.states[pid].Waiting? ==> t.runnable == Without(s.runnable, pid) + [pid])
    ensures var t := Resume(Wake(Stop(s, pid), pid), pid);
            t.states == s.states[pid := Runnable] && t.runnable == Without(s.runnable, pid) + [pid]
  {
    hide NoRepeats, Without;
    if s.states[pid] != Runnable {
      WithoutNone(s.runnable, pid);
    }
    assert Resume(Stop(s, pid), pid).states == s.states[pid := if s.states[pid].Running? then Runnable
                                                               else s.states[pid]];
    assert s.states[pid := s.states[pid]] == s.states;
  }

  lemma {:induction false} WithoutNone(queue: seq<Pid>, pid: Pid)
    requires pid !in queue
    ensures Without(queue, pid) == queue
  {
    if queue != [] {
      assert queue == [queue[0]] + queue[1..];
      WithoutNone(queue[1..], pid);
    }
  }

  /** A stopped task does not run until it is continued, whatever is woken or dispatched. */
  lemma StoppedStays(s: Scheduler, pid: Pid, wait: Wait)
    requires Ordered(s) && pid in s.states && s.states[pid].Stopped?
    ensures Dispatch(s).states[pid] == s.states[pid] && Dispatch(s).current != Some(pid)
    ensures pid in WakeWaiters(s, wait).states && WakeWaiters(s, wait).states[pid].Stopped?
    ensures Wake(s, pid).states[pid].Stopped?
  {
    hide NoRepeats, Accepts;
    WakeWaitersExactly(s, wait);
    WakeWaitersInOrder(s, wait);
    if s.runnable != [] {
      assert s.runnable[0] in s.runnable;
    }
  }

  // ----- Waking in order -----

  lemma WakeAppends(s: Scheduler, pid: Pid)
    ensures var t := Wake(s, pid);
            && s.runnable <= t.runnable && t.current == s.current && t.states.Keys == s.states.Keys
            && (pid in s.states ==> t.states[pid] == Awakened(s.states[pid]))
            && (forall other :: other in s.states && other != pid ==> t.states[other] == s.states[other])
  {
    hide Without;
  }

  lemma {:induction false} WakeEachAppends(s: Scheduler, pids: seq<Pid>)
    ensures var t := WakeEach(s, pids);
            && s.runnable <= t.runnable && t.current == s.current && t.states.Keys == s.states.Keys
            && (forall pid :: pid in s.states ==>
                  t.states[pid] == if pid in pids then Awakened(s.states[pid]) else s.states[pid])
    decreases |pids|
  {
    hide Wake;
    if pids != [] {
      assert pids == [pids[0]] + pids[1..];
      WakeAppends(s, pids[0]);
      WakeEachAppends(Wake(s, pids[0]), pids[1..]);
    }
  }

  lemma {:induction false} WakeEachInOrder(s: Scheduler, pids: seq<Pid>, p: Pid, q: Pid)
    requires Ordered(s) && Before(pids, p, q) && p != q
    requires p in s.states && s.states[p].Waiting? && q in s.states && s.states[q].Waiting?
    requires q !in pids[..IndexOf(pids, p)]
    ensures Before(WakeEach(s, pids).runnable, p, q)
    decreases |pids|
  {
    hide NoRepeats, Wake, WakeEach, Ordered;
    var i, j := BeforeAt(pids, p, q);
    var t := Wake(s, pids[0]);
    WakeAppends(s, pids[0]);
    WakeOrdered(s, pids[0]);
    WakeEachUnfolds(s, pids);
    if pids[0] == p {
      assert pids[1..][j - 1] == q;
      FirstIsAhead(s, pids, p, q);
    } else {
      assert pids[0] != q by {
        assert pids[..IndexOf(pids, p)][0] == pids[0];
      }
      BeforeTail(pids, p, q);
      IndexOfTail(pids, p);
      WakeEachInOrder(t, pids[1..], p, q);
    }
  }

  lemma WakeEachUnfolds(s: Scheduler, pids: seq<Pid>)
    requires pids != []
    ensures WakeEach(s, pids) == WakeEach(Wake(s, pids[0]), pids[1..])
  {
  }

  /** The first woken is ahead of the ones woken after it. */
  lemma FirstIsAhead(s: Scheduler, pids: seq<Pid>, p: Pid, q: Pid)
    requires Ordered(s) && pids != [] && pids[0] == p && q in pids[1..] && p != q
    requires p in s.states && s.states[p].Waiting? && q in s.states && s.states[q].Waiting?
    ensures Before(WakeEach(s, pids).runnable, p, q)
  {
    hide NoRepeats, Wake, WakeEach;
    var t := Wake(s, p);
    WakeAppends(s, p);
    WakeOrdered(s, p);
    WakeEachUnfolds(s, pids);
    WakeEachAppends(t, pids[1..]);
    WakeEachWoken(t, pids[1..]);
    BeforeJoined(t.runnable, WakeEach(s, pids).runnable, p, q);
  }

  /** Where a task first is in a list. */
  function IndexOf(pids: seq<Pid>, p: Pid): (i: nat)
    ensures i <= |pids| && (i < |pids| ==> pids[i] == p) && p !in pids[..i]
  {
    if pids == [] || pids[0] == p then 0 else 1 + IndexOf(pids[1..], p)
  }

  lemma IndexOfTail(pids: seq<Pid>, p: Pid)
    requires pids != [] && pids[0] != p
    ensures pids[1..][..IndexOf(pids[1..], p)] == pids[..IndexOf(pids, p)][1..]
  {
  }

  lemma {:induction false} WaitersInOrder(s: Scheduler, queue: seq<Pid>, wait: Wait, p: Pid, q: Pid)
    requires NoRepeats(queue) && Before(queue, p, q) && WaitsFor(s, p, wait) && WaitsFor(s, q, wait)
    ensures NoRepeats(Waiters(s, queue, wait)) && Before(Waiters(s, queue, wait), p, q)
  {
    hide Accepts;
    WaitersOnce(s, queue, wait);
    var i, j := BeforeAt(queue, p, q);
    var rest := queue[1..];
    if queue[0] == p {
      assert rest[j - 1] == q;
      WaitersExactly(s, rest, wait);
      var k :| 0 <= k < |Waiters(s, rest, wait)| && Waiters(s, rest, wait)[k] == q;
      assert Waiters(s, queue, wait)[0] == p && Waiters(s, queue, wait)[k + 1] == q;
    } else {
      BeforeTail(queue, p, q);
      WaitersInOrder(s, rest, wait, p, q);
      var k, l := BeforeAt(Waiters(s, rest, wait), p, q);
      var d := |Waiters(s, queue, wait)| - |Waiters(s, rest, wait)|;
      assert Waiters(s, queue, wait)[k + d] == p && Waiters(s, queue, wait)[l + d] == q;
    }
  }

  lemma {:induction false} WaitersOnce(s: Scheduler, queue: seq<Pid>, wait: Wait)
    requires NoRepeats(queue)
    ensures NoRepeats(Waiters(s, queue, wait))
  {
    hide Accepts;
    if queue != [] {
      WaitersExactly(s, queue[1..], wait);
      TailOnce(queue);
      WaitersOnce(s, queue[1..], wait);
      assert queue[0] !in Waiters(s, queue[1..], wait);
    }
  }

  /** Waking a condition: its waiters become runnable, or runnable once continued, and nobody else's state
      changes; who was runnable stays ahead, and the woken follow in the order in which they blocked. */
  lemma WakeWaitersInOrder(s: Scheduler, wait: Wait)
    requires Ordered(s)
    ensures var t := WakeWaiters(s, wait);
            && s.runnable <= t.runnable && t.current == s.current && t.states.Keys == s.states.Keys
            && (forall pid :: pid in s.states ==>
                  t.states[pid] == if WaitsFor(s, pid, wait) then Awakened(s.states[pid]) else s.states[pid])
            && (forall p, q :: Before(s.blocked, p, q) && WakesFor(s, p, wait) && WakesFor(s, q, wait) ==>
                  Before(t.runnable, p, q))
  {
    hide Accepts, WakeEach;
    var pids := Waiters(s, s.blocked, wait);
    WaitersExactly(s, s.blocked, wait);
    WakeEachAppends(s, pids);
    forall p, q | Before(s.blocked, p, q) && WakesFor(s, p, wait) && WakesFor(s, q, wait)
      ensures Before(WakeWaiters(s, wait).runnable, p, q)
    {
      WokenInOrder(s, wait, p, q);
    }
  }

  /** A task that is not stopped waits for a condition. */
  ghost predicate WakesFor(s: Scheduler, pid: Pid, wait: Wait) {
    WaitsFor(s, pid, wait) && s.states[pid].Waiting?
  }

  lemma WokenInOrder(s: Scheduler, wait: Wait, p: Pid, q: Pid)
    requires Ordered(s) && Before(s.blocked, p, q) && WakesFor(s, p, wait) && WakesFor(s, q, wait)
    ensures Before(WakeWaiters(s, wait).runnable, p, q)
  {
    hide Accepts, WakeEach, Waiters, NoRepeats, Before;
    var pids := Waiters(s, s.blocked, wait);
    WaitersInOrder(s, s.blocked, wait, p, q);
    NotBefore(s.blocked, p, q);
    NoneEarlier(pids, p, q);
    WakeEachInOrder(s, pids, p, q);
  }

  lemma NoneEarlier(pids: seq<Pid>, p: Pid, q: Pid)
    requires NoRepeats(pids) && Before(pids, p, q)
    ensures q !in pids[..IndexOf(pids, p)]
  {
    var i, j := BeforeAt(pids, p, q);
    var k := IndexOf(pids, p);
    assert k == i;
  }
}
