// The retained shell continuation as the source writes it: an object whose stack and counters are
// changed in place, proved against the transition function of the frame machine.

module ShellContinuations {
  import opened Basics
  import opened ShellSyntax
  import opened FrameMachine
  import FrameRefinement
  import FrameCounters

  /** The interpreter fields that control flow shares with the rest of the shell. */
  class Interp {
    var condDepth: nat
    var loopDepth: nat
    var loopBreak: nat
    var loopContinue: nat
    var returning: Option<int>
    var exiting: Option<int>
    var optErrexit: bool
    var handlingError: bool
    var lastStatus: int
    var pipeStatus: int
    var trace: seq<Event>

    constructor ()
      ensures condDepth == 0 && loopDepth == 0 && loopBreak == 0 && loopContinue == 0
      ensures returning == None && exiting == None && !optErrexit && !handlingError
      ensures lastStatus == 0 && pipeStatus == 0 && trace == []
    {
      condDepth, loopDepth, loopBreak, loopContinue := 0, 0, 0, 0;
      returning, exiting, optErrexit, handlingError := None, None, false, false;
      lastStatus, pipeStatus, trace := 0, 0, [];
    }

    predicate ShouldUnwind()
      reads this
    {
      exiting.Some? || returning.Some? || loopBreak > 0 || loopContinue > 0
    }
  }

  datatype ShellPoll = Pending | Ready(status: int)

  class ShellContinuation {
    const env: Env
    var frames: seq<Frame>
    var status: int
    var errexitExempt: bool

    constructor (node: Node, env: Env)
      ensures frames == [Eval(node)] && status == 0 && !errexitExempt && this.env == env
    {
      this.env := env;
      frames, status, errexitExempt := [Eval(node)], 0, false;
    }

    /** The machine state this object and its interpreter hold. */
    ghost function View(i: Interp): Config
      reads this, i
    {
      Config(frames, Shell(status, errexitExempt, i.optErrexit, i.pipeStatus, i.handlingError, i.trace),
             i.condDepth, i.loopDepth, Flags(i.loopBreak, i.loopContinue, i.returning, i.exiting), i.lastStatus)
    }

    /** Undo what one frame holds. */
    method GiveBack(i: Interp, frame: Frame)
      modifies i
      ensures View(i) == old(View(i)).(
                sh := old(View(i)).sh.(handling := old(i.handlingError) && !frame.FinishErrorTrap?),
                cond := SatSub(old(i.condDepth), if IsCondFrame(frame) then 1 else 0),
                loops := SatSub(old(i.loopDepth), if frame.FinishLoop? then 1 else 0))
    {
      match frame {
        case FinishErrorTrap(_, _) => i.handlingError := false;
        case FinishLoop => i.loopDepth := SatSub(i.loopDepth, 1);
        case Conditional(_, _) => i.condDepth := SatSub(i.condDepth, 1);
        case Negate => i.condDepth := SatSub(i.condDepth, 1);
        case IfAfter(_, _, _) => i.condDepth := SatSub(i.condDepth, 1);
        case WhileAfterCondition(_, _, _, _) => i.condDepth := SatSub(i.condDepth, 1);
        case _ =>
      }
    }

    /** Drop every frame from the top down, undoing what each of them holds. */
    method Abort(i: Interp)
      modifies this, i
      ensures View(i) == FrameMachine.Abort(old(View(i)))
    {
      hide CondFrames, LoopFrames, TrapFrames;
      var all := frames;
      frames := [];
      var n := |all|;
      ghost var before := old(View(i));
      assert all[..n] == all;
      while n > 0
        invariant 0 <= n <= |all|
        invariant CondFrames(all[..n]) <= CondFrames(all) && LoopFrames(all[..n]) <= LoopFrames(all)
        invariant TrapFrames(all[..n]) <= TrapFrames(all)
        invariant View(i) == before.(
                    frames := [],
                    sh := before.sh.(handling := before.sh.handling && TrapFrames(all) == TrapFrames(all[..n])),
                    cond := SatSub(before.cond, CondFrames(all) - CondFrames(all[..n])),
                    loops := SatSub(before.loops, LoopFrames(all) - LoopFrames(all[..n])))
      {
        n := n - 1;
        assert all[..n + 1] == all[..n] + [all[n]];
        FrameCounters.CountsOn(all[..n], all[n]);
        GiveBack(i, all[n]);
      }
      assert all[..0] == [];
      FrameCounters.CountsOfNone();
    }

    method Push(i: Interp, frame: Frame) returns (accepted: bool)
      modifies this, i
      ensures accepted == (|old(frames)| < MAX_SHELL_FRAMES)
      ensures View(i) == FrameMachine.Push(old(View(i)), frame)
    {
      if |frames| >= MAX_SHELL_FRAMES {
        status := 2;
        Abort(i);
        accepted := false;
      } else {
        frames := frames + [frame];
        accepted := true;
      }
    }

    method EnsureCapacity(i: Interp, additional: nat) returns (fits: bool)
      modifies this, i
      ensures fits == (|old(frames)| + additional <= MAX_SHELL_FRAMES)
      ensures View(i) == if fits then old(View(i)) else Overflow(old(View(i)))
    {
      fits := |frames| + additional <= MAX_SHELL_FRAMES;
      if !fits {
        status := 2;
        Abort(i);
      }
    }

    method PushTwo(i: Interp, below: Frame, above: Frame)
      modifies this, i
      ensures View(i) == Push2(old(View(i)), below, above)
    {
      var accepted := Push(i, below);
      if accepted {
        var _ := Push(i, above);
      }
    }

    method PushEval(i: Interp, node: Node)
      modifies this, i
      ensures View(i) == FrameMachine.Push(old(View(i)), Eval(node))
    {
      var _ := Push(i, Eval(node));
    }

    method EvalCommand(i: Interp, cmd: nat)
      requires !i.ShouldUnwind()
      modifies this, i
      ensures View(i) == EvalNode(old(View(i)), Command(cmd))
    {
      var accepted := Push(i, CheckError);
      if !accepted { return; }
      accepted := Push(i, RecordPipeStatus);
      if !accepted { return; }
      errexitExempt := false;
      var _ := Push(i, PrepareCommand(cmd));
    }

    method EvalLoop(i: Interp, node: Node)
      requires !i.ShouldUnwind() && (node.While? || node.For?)
      modifies this, i
      ensures View(i) == EvalNode(old(View(i)), node)
    {
      if node.While? { status := 0; }
      var fits := EnsureCapacity(i, 2);
      if !fits { return; }
      i.loopDepth := SatInc(i.loopDepth);
      frames := frames + [FinishLoop];
      frames := frames + [if node.While? then WhileCheck(node.cond, node.body, node.until, 0)
                          else PrepareFor(node.name, node.words, node.body)];
    }

    method EvalStep(i: Interp, node: Node)
      modifies this, i
      ensures View(i) == EvalNode(old(View(i)), node)
    {
      hide Overflow, FrameMachine.Push, Push2;
      if i.ShouldUnwind() {
        status := i.lastStatus;
        return;
      }
      match node {
        case Empty => status := 0;
        case Command(cmd) => EvalCommand(i, cmd);
        case And(lhs, rhs) =>
          i.condDepth := SatInc(i.condDepth);
          PushTwo(i, Conditional(rhs, true), Eval(lhs));
        case Or(lhs, rhs) =>
          i.condDepth := SatInc(i.condDepth);
          PushTwo(i, Conditional(rhs, false), Eval(lhs));
        case Not(inner) =>
          i.condDepth := SatInc(i.condDepth);
          PushTwo(i, Negate, Eval(inner));
        case Seq(nodes) =>
          status := 0;
          var _ := Push(i, Sequence(nodes, 0));
        case Group(inner) => PushEval(i, inner);
        case If(_, _, _, els) =>
          var _ := Push(i, IfNext(Branches(node), 0, els));
        case While(_, _, _) => EvalLoop(i, node);
        case For(_, _, _) => EvalLoop(i, node);
      }
    }

    /** A loop body ended: consume one level of break or continue, or go round again. */
    method FinishBody(i: Interp, again: Frame)
      modifies this, i
      ensures View(i) == AfterBody(old(View(i)), again)
    {
      hide Overflow;
      if i.loopBreak > 0 {
        i.loopBreak := i.loopBreak - 1;
        return;
      }
      if i.loopContinue > 0 {
        i.loopContinue := i.loopContinue - 1;
      }
      if !i.ShouldUnwind() {
        var _ := Push(i, again);
      }
    }

    /** Run a simple command through the oracle. */
    method RunCommand(i: Interp, cmd: nat)
      modifies this, i
      ensures View(i) == Fire(env, PrepareCommand(cmd), old(View(i)))
    {
      hide Overflow, FrameMachine.Push, Push2, EvalNode, AfterBody, BodyFrames;
      var request := Request(cmd, i.lastStatus, i.condDepth, i.loopDepth);
      var reply := env.oracle.command(i.trace, request);
      i.trace := i.trace + [Ran(request, BodyFrames(frames), reply)];
      i.optErrexit := reply.errexit;
      match reply.action {
        case Done(code) => status := code;
        case BreakLoops(n) =>
          status := if i.loopDepth == 0 || n == 0 then 1 else 0;
          if i.loopDepth > 0 && n > 0 { i.loopBreak := n; }
        case ContinueLoops(n) =>
          status := if i.loopDepth == 0 || n == 0 then 1 else 0;
          if i.loopDepth > 0 && n > 0 { i.loopContinue := n; }
        case ReturnWith(code) => i.returning := Some(code); status := code;
        case ExitWith(code) => i.exiting := Some(code); status := code;
      }
    }

    method PrepareItems(i: Interp, name: string, words: nat, body: Node)
      modifies this, i
      ensures View(i) == Fire(env, PrepareFor(name, words, body), old(View(i)))
    {
      hide Overflow, FrameMachine.Push, Push2, EvalNode, AfterBody, BodyFrames;
      var fits := EnsureCapacity(i, 1);
      if fits {
        var outcome := env.oracle.words(i.trace, words);
        i.trace := i.trace + [Expanded(words, outcome)];
        match outcome {
          case Failed(code, abortShell) =>
            status := code;
            if abortShell { i.exiting := Some(code); }
          case Items(items) =>
            status := 0;
            frames := frames + [ForNext(name, items, body, 0, 0)];
        }
      }
    }

    /** Status bookkeeping and the ERR trap. */
    method StatusStep(i: Interp, frame: Frame)
      requires frame.RecordPipeStatus? || frame.CheckError? || frame.FinishErrorTrap?
      modifies this, i
      ensures View(i) == Fire(env, frame, old(View(i)))
    {
      hide Overflow, FrameMachine.Push, Push2, EvalNode, AfterBody, BodyFrames;
      match frame {
        case RecordPipeStatus => i.pipeStatus := status;
        case CheckError =>
          if status != 0 && i.condDepth == 0 && !errexitExempt && !i.handlingError && !i.ShouldUnwind() &&
           env.handler.Some? {
            var fits := EnsureCapacity(i, 2);
            if fits {
              i.handlingError := true;
              frames := frames + [FinishErrorTrap(status, errexitExempt)];
              frames := frames + [Eval(env.handler.value)];
            }
          }
        case FinishErrorTrap(previousStatus, savedExempt) =>
          i.handlingError := false;
          status := if i.exiting.Some? then i.exiting.value else previousStatus;
          errexitExempt := savedExempt;
      }
    }

    /** Conditions: `&&`, `||`, `!` and `if`. */
    method ConditionStep(i: Interp, frame: Frame)
      requires frame.Conditional? || frame.Negate? || frame.IfNext? || frame.IfAfter?
      modifies this, i
      ensures View(i) == Fire(env, frame, old(View(i)))
    {
      hide Overflow, FrameMachine.Push, Push2, EvalNode, AfterBody;
      match frame {
        case Conditional(rhs, runOnSuccess) =>
          i.condDepth := SatSub(i.condDepth, 1);
          if !i.ShouldUnwind() && (status == 0) == runOnSuccess {
            errexitExempt := false;
            PushEval(i, rhs);
          } else if !i.ShouldUnwind() {
            errexitExempt := true;
          }
        case Negate =>
          i.condDepth := SatSub(i.condDepth, 1);
          status := if status == 0 then 1 else 0;
          errexitExempt := true;
        case IfNext(branches, next, els) =>
          if next < |branches| {
            i.condDepth := SatInc(i.condDepth);
            PushTwo(i, IfAfter(branches, next, els), Eval(branches[next].cond));
          } else if els.Some? {
            PushEval(i, els.value);
          } else {
            status := 0;
          }
        case IfAfter(branches, next, els) =>
          i.condDepth := SatSub(i.condDepth, 1);
          if status == 0 && next < |branches| && !i.ShouldUnwind() {
            PushEval(i, branches[next].body);
          } else if !i.ShouldUnwind() {
            var _ := Push(i, IfNext(branches, next + 1, els));
          }
      }
    }

    method ForStep(i: Interp, frame: Frame)
      requires frame.ForNext? || frame.ForAfterBody?
      modifies this, i
      ensures View(i) == Fire(env, frame, old(View(i)))
    {
      hide Overflow, FrameMachine.Push, Push2, EvalNode, AfterBody;
      match frame {
        case ForNext(name, items, body, next, bodyStatus) =>
          if i.ShouldUnwind() {
            status := bodyStatus;
          } else if next < |items| {
            i.trace := i.trace + [Bound(name, items[next])];
            PushTwo(i, ForAfterBody(name, items, body, next + 1), Eval(body));
          } else {
            status := bodyStatus;
          }
        case ForAfterBody(name, items, body, next) => FinishBody(i, ForNext(name, items, body, next, status));
      }
    }

    /** Lists and `while`. */
    method LoopStep(i: Interp, frame: Frame)
      requires frame.Sequence? || frame.WhileCheck? || frame.WhileAfterCondition? || frame.WhileAfterBody? ||
               frame.FinishLoop?
      modifies this, i
      ensures View(i) == Fire(env, frame, old(View(i)))
    {
      hide Overflow, FrameMachine.Push, Push2, EvalNode, AfterBody;
      match frame {
        case Sequence(nodes, next) =>
          if next > 0 && i.ShouldUnwind() { return; }
          if next > 0 && status != 0 && i.optErrexit && i.condDepth == 0 && !errexitExempt {
            i.exiting := Some(status);
            return;
          }
          if next < |nodes| {
            PushTwo(i, Sequence(nodes, next + 1), Eval(nodes[next]));
          }
        case WhileCheck(cond, body, until, bodyStatus) =>
          if i.ShouldUnwind() {
            status := bodyStatus;
            return;
          }
          i.condDepth := SatInc(i.condDepth);
          PushTwo(i, WhileAfterCondition(cond, body, until, bodyStatus), Eval(cond));
        case WhileAfterCondition(cond, body, until, bodyStatus) =>
          i.condDepth := SatSub(i.condDepth, 1);
          var enter := if until then status != 0 else status == 0;
          if enter && !i.ShouldUnwind() {
            PushTwo(i, WhileAfterBody(cond, body, until), Eval(body));
          } else {
            status := bodyStatus;
          }
        case WhileAfterBody(cond, body, until) => FinishBody(i, WhileCheck(cond, body, until, status));
        case FinishLoop => i.loopDepth := SatSub(i.loopDepth, 1);
      }
    }

    /** Execute one frame that was just popped. */
    method Step(i: Interp, frame: Frame)
      modifies this, i
      ensures View(i) == Fire(env, frame, old(View(i)))
    {
      hide Overflow, FrameMachine.Push, Push2, EvalNode, AfterBody, BodyFrames;
      match frame {
        case Eval(node) => EvalStep(i, node);
        case RecordPipeStatus => StatusStep(i, frame);
        case CheckError => StatusStep(i, frame);
        case FinishErrorTrap(_, _) => StatusStep(i, frame);
        case PrepareCommand(cmd) => RunCommand(i, cmd);
        case PrepareFor(name, words, body) => PrepareItems(i, name, words, body);
        case Conditional(_, _) => ConditionStep(i, frame);
        case Negate => ConditionStep(i, frame);
        case IfNext(_, _, _) => ConditionStep(i, frame);
        case IfAfter(_, _, _) => ConditionStep(i, frame);
        case ForNext(_, _, _, _, _) => ForStep(i, frame);
        case ForAfterBody(_, _, _, _) => ForStep(i, frame);
        case _ => LoopStep(i, frame);
      }
    }

    /** Pop the top frame and execute it. */
    method PopStep(i: Interp)
      requires frames != []
      modifies this, i
      ensures View(i) == Fire(env, old(Top(frames)), old(View(i)).(frames := old(Below(frames))))
      ensures View(i).(last := status) == FrameMachine.Step(env, old(View(i)))
    {
      hide Fire;
      var frame := Top(frames);
      frames := Below(frames);
      Step(i, frame);
    }

    /** Run up to `budget` frames, draining status bookkeeping after each of them without charging
        it to the budget. The state moves along the machine's run, by at least the budget unless
        the run ends; the answer is `Ready` exactly when the stack is empty. */
    method Poll(i: Interp, budget: nat) returns (poll: ShellPoll)
      modifies this, i
      ensures exists k: nat :: (poll.Pending? ==> k >= budget && k > 0) && View(i) == Steps(env, k, old(View(i)))
      ensures poll == if frames == [] then Ready(status) else Pending
    {
      hide Fire, Steps, FrameMachine.Step;
      ghost var start, k := View(i), 0;
      StepsNone(env, start);
      var rounds := if budget == 0 then 1 else budget;
      while rounds > 0
        invariant View(i) == Steps(env, k, start)
        invariant k + rounds >= budget && k + rounds > 0
      {
        rounds := rounds - 1;
        if frames == [] {
          return Ready(status);
        }
        PopStep(i);
        StepsNext(env, k, start);
        k := k + 1;
        while frames != [] && IsBookkeeping(Top(frames))
          invariant View(i).(last := status) == Steps(env, k, start)
          invariant k + rounds >= budget && k + rounds > 0
          decreases BookkeepingLeft(frames)
        {
          ghost var before := View(i);
          BookkeepingShrinks(env, before);
          PopStep(i);
          LastIsIrrelevant(env, before, before.sh.status);
          StepsNext(env, k, start);
          k := k + 1;
        }
        i.lastStatus := status;
      }
      poll := if frames == [] then Ready(status) else Pending;
    }
  }

  function Top(frames: seq<Frame>): Frame
    requires frames != []
  {
    frames[|frames| - 1]
  }

  function Below(frames: seq<Frame>): seq<Frame>
    requires frames != []
  {
    frames[..|frames| - 1]
  }

  /** Frames that `poll` executes without charging a scheduler quantum. */
  predicate IsBookkeeping(f: Frame) {
    f.RecordPipeStatus? || f.CheckError?
  }

  function BookkeepingLeft(frames: seq<Frame>): nat {
    if frames != [] && IsBookkeeping(Top(frames)) then |frames| else 0
  }

  lemma BookkeepingShrinks(env: Env, c: Config)
    requires c.frames != [] && IsBookkeeping(Top(c.frames))
    ensures BookkeepingLeft(Fire(env, Top(c.frames), c.(frames := Below(c.frames))).frames) < BookkeepingLeft(c.frames)
  {
  }

  /** Bookkeeping does not look at `$?`, so publishing the status late changes nothing. */
  lemma LastIsIrrelevant(env: Env, c: Config, last: int)
    requires c.frames != [] && IsBookkeeping(Top(c.frames))
    ensures FrameMachine.Step(env, c) == FrameMachine.Step(env, c.(last := last))
  {
    hide CondFrames, LoopFrames, TrapFrames, BodyFrames, EvalNode, AfterBody, Push2;
  }

  lemma StepsNone(env: Env, c: Config)
    ensures Steps(env, 0, c) == c
  {
  }

  lemma StepsNext(env: Env, k: nat, c: Config)
    ensures Steps(env, k + 1, c) == FrameMachine.Step(env, Steps(env, k, c))
  {
    hide FrameMachine.Step;
    FrameRefinement.StepsAdd(env, k, 1, c);
    assert Steps(env, 1, Steps(env, k, c)) == Steps(env, 0, FrameMachine.Step(env, Steps(env, k, c)));
  }
}
