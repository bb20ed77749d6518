// What every step of the frame machine keeps, including the step that overflows the stack: the
// condition and loop counters always equal their starting values plus the frames that will give
// them back.

module FrameCounters {
  import opened Basics
  import opened ShellSyntax
  import opened FrameMachine

  /** The counters account for exactly the frames on the stack, and the stack is within its limit. */
  ghost predicate Balanced(c: Config, cond0: nat, loops0: nat) {
    && |c.frames| <= MAX_SHELL_FRAMES
    && c.cond == cond0 + CondFrames(c.frames)
    && c.loops == loops0 + LoopFrames(c.frames)
  }

  lemma CountsOn(frames: seq<Frame>, f: Frame)
    ensures CondFrames(frames + [f]) == CondFrames(frames) + if IsCondFrame(f) then 1 else 0
    ensures LoopFrames(frames + [f]) == LoopFrames(frames) + if f.FinishLoop? then 1 else 0
    ensures TrapFrames(frames + [f]) == TrapFrames(frames) + if f.FinishErrorTrap? then 1 else 0
  {
    assert (frames + [f])[..|frames|] == frames;
  }

  lemma CountsOfNone()
    ensures CondFrames([]) == 0 && LoopFrames([]) == 0 && TrapFrames([]) == 0
  {
  }

  lemma CountsBounded(frames: seq<Frame>)
    ensures CondFrames(frames) <= |frames| && LoopFrames(frames) <= |frames|
  {
  }

  /** Overflow gives back everything the stack holds. */
  lemma OverflowBalanced(c: Config, cond0: nat, loops0: nat)
    requires c.cond == cond0 + CondFrames(c.frames) && c.loops == loops0 + LoopFrames(c.frames)
    ensures Balanced(Overflow(c), cond0, loops0) && Overflow(c).frames == []
  {
  }

  /** A plain frame may overflow; either way the counters stay balanced. */
  lemma PushBalanced(c: Config, f: Frame, cond0: nat, loops0: nat)
    requires c.cond == cond0 + CondFrames(c.frames) && c.loops == loops0 + LoopFrames(c.frames)
    requires !IsCondFrame(f) && !f.FinishLoop?
    ensures Balanced(Push(c, f), cond0, loops0)
  {
    CountsOn(c.frames, f);
    OverflowBalanced(c, cond0, loops0);
  }

  /** A condition frame never overflows, because a frame was just popped; the node above it may,
      and then the condition frame is already on the stack to give its increment back. */
  lemma Push2Balanced(c: Config, f: Frame, g: Frame, cond0: nat, loops0: nat)
    requires |c.frames| < MAX_SHELL_FRAMES && !f.FinishLoop? && !IsCondFrame(g) && !g.FinishLoop?
    requires c.cond == cond0 + CondFrames(c.frames) + if IsCondFrame(f) then 1 else 0
    requires c.loops == loops0 + LoopFrames(c.frames)
    ensures Balanced(Push2(c, f, g), cond0, loops0)
  {
    CountsOn(c.frames, f);
    PushBalanced(c.(frames := c.frames + [f]), g, cond0, loops0);
  }

  /** The counters a popped frame leaves to account for. */
  ghost predicate Popped(f: Frame, c: Config, cond0: nat, loops0: nat) {
    && |c.frames| < MAX_SHELL_FRAMES
    && c.cond == cond0 + CondFrames(c.frames) + (if IsCondFrame(f) then 1 else 0)
    && c.loops == loops0 + LoopFrames(c.frames) + (if f.FinishLoop? then 1 else 0)
    && cond0 + MAX_SHELL_FRAMES <= U32_MAX && loops0 + MAX_SHELL_FRAMES <= U32_MAX
  }

  lemma EvalCommandBalanced(c: Config, cmd: nat, cond0: nat, loops0: nat)
    requires Popped(Eval(Command(cmd)), c, cond0, loops0)
    ensures Balanced(EvalNode(c, Command(cmd)), cond0, loops0)
  {
    hide Overflow, CondFrames, LoopFrames, Push;
    CountsOn(c.frames, CheckError);
    CountsOn(c.frames + [CheckError], RecordPipeStatus);
    OverflowBalanced(c.(frames := c.frames + [CheckError]), cond0, loops0);
    PushBalanced(SetExempt(c.(frames := c.frames + [CheckError] + [RecordPipeStatus]), false), PrepareCommand(cmd),
                 cond0, loops0);
  }

  lemma EvalLoopBalanced(c: Config, node: Node, cond0: nat, loops0: nat)
    requires (node.While? || node.For?) && Popped(Eval(node), c, cond0, loops0)
    ensures Balanced(EvalNode(c, node), cond0, loops0)
  {
    hide Overflow, CondFrames, LoopFrames, Push;
    CountsBounded(c.frames);
    OverflowBalanced(c, cond0, loops0);
    OverflowBalanced(SetStatus(c, 0), cond0, loops0);
    CountsOn(c.frames, FinishLoop);
    CountsOn(c.frames + [FinishLoop],
             if node.While? then WhileCheck(node.cond, node.body, node.until, 0)
             else PrepareFor(node.name, node.words, node.body));
  }

  lemma EvalBalanced(c: Config, node: Node, cond0: nat, loops0: nat)
    requires Popped(Eval(node), c, cond0, loops0)
    ensures Balanced(EvalNode(c, node), cond0, loops0)
  {
    hide Overflow, CondFrames, LoopFrames, Push, Push2;
    CountsBounded(c.frames);
    var inc := c.(cond := SatInc(c.cond));
    match node {
      case Empty =>
      case Command(cmd) =>
        EvalCommandBalanced(c, cmd, cond0, loops0);
      case And(lhs, rhs) =>
        Push2Balanced(inc, Conditional(rhs, true), Eval(lhs), cond0, loops0);
      case Or(lhs, rhs) =>
        Push2Balanced(inc, Conditional(rhs, false), Eval(lhs), cond0, loops0);
      case Not(inner) =>
        Push2Balanced(inc, Negate, Eval(inner), cond0, loops0);
      case Seq(nodes) =>
        PushBalanced(SetStatus(c, 0), Sequence(nodes, 0), cond0, loops0);
      case Group(inner) =>
        PushBalanced(c, Eval(inner), cond0, loops0);
      case If(_, _, _, els) =>
        PushBalanced(c, IfNext(Branches(node), 0, els), cond0, loops0);
      case While(_, _, _) =>
        EvalLoopBalanced(c, node, cond0, loops0);
      case For(_, _, _) =>
        EvalLoopBalanced(c, node, cond0, loops0);
    }
  }

  lemma AfterBodyBalanced(c: Config, again: Frame, cond0: nat, loops0: nat)
    requires |c.frames| < MAX_SHELL_FRAMES && !IsCondFrame(again) && !again.FinishLoop?
    requires c.cond == cond0 + CondFrames(c.frames) && c.loops == loops0 + LoopFrames(c.frames)
    ensures Balanced(AfterBody(c, again), cond0, loops0)
  {
    hide Push, CondFrames, LoopFrames;
    PushBalanced(c, again, cond0, loops0);
    PushBalanced(c.(flags := c.flags.(cont := if c.flags.cont > 0 then c.flags.cont - 1 else 0)), again, cond0, loops0);
  }

  lemma CheckErrorBalanced(env: Env, c: Config, cond0: nat, loops0: nat)
    requires Popped(CheckError, c, cond0, loops0)
    ensures Balanced(Fire(env, CheckError, c), cond0, loops0)
  {
    hide Overflow, Push, Push2, EvalNode, CondFrames, LoopFrames;
    OverflowBalanced(c, cond0, loops0);
    if env.handler.Some? {
      var g := FinishErrorTrap(c.sh.status, c.sh.exempt);
      CountsOn(c.frames, g);
      CountsOn(c.frames + [g], Eval(env.handler.value));
    }
  }

  lemma PrepareForBalanced(env: Env, f: Frame, c: Config, cond0: nat, loops0: nat)
    requires f.PrepareFor? && Popped(f, c, cond0, loops0)
    ensures Balanced(Fire(env, f, c), cond0, loops0)
  {
    hide Overflow, Push, Push2, EvalNode, CondFrames, LoopFrames;
    var (sh, outcome) := Expand(env.oracle, f.words, c.sh);
    if outcome.Items? {
      CountsOn(c.frames, ForNext(f.name, outcome.items, f.body, 0, 0));
    }
  }

  lemma FireBalanced(env: Env, f: Frame, c: Config, cond0: nat, loops0: nat)
    requires Popped(f, c, cond0, loops0)
    ensures Balanced(Fire(env, f, c), cond0, loops0)
  {
    hide Overflow, Push, Push2, AfterBody, EvalNode, CondFrames, LoopFrames;
    CountsBounded(c.frames);
    var dec := c.(cond := SatSub(c.cond, 1));
    var inc := c.(cond := SatInc(c.cond));
    match f {
      case Eval(node) => EvalBalanced(c, node, cond0, loops0);
      case RecordPipeStatus =>
      case CheckError =>
        CheckErrorBalanced(env, c, cond0, loops0);
      case PrepareCommand(cmd) =>
      case PrepareFor(name, words, body) =>
        PrepareForBalanced(env, f, c, cond0, loops0);
      case Sequence(nodes, next) =>
        if next < |nodes| {
          Push2Balanced(c, Sequence(nodes, next + 1), Eval(nodes[next]), cond0, loops0);
        }
      case Conditional(rhs, runOnSuccess) =>
        PushBalanced(SetExempt(dec, false), Eval(rhs), cond0, loops0);
      case Negate =>
      case IfNext(branches, next, els) =>
        if next < |branches| {
          Push2Balanced(inc, IfAfter(branches, next, els), Eval(branches[next].cond), cond0, loops0);
        } else if els.Some? {
          PushBalanced(c, Eval(els.value), cond0, loops0);
        }
      case IfAfter(branches, next, els) =>
        if next < |branches| {
          PushBalanced(dec, Eval(branches[next].body), cond0, loops0);
        }
        PushBalanced(dec, IfNext(branches, next + 1, els), cond0, loops0);
      case WhileCheck(cond, body, until, bodyStatus) =>
        Push2Balanced(inc, WhileAfterCondition(cond, body, until, bodyStatus), Eval(cond), cond0, loops0);
      case WhileAfterCondition(cond, body, until, bodyStatus) =>
        Push2Balanced(dec, WhileAfterBody(cond, body, until), Eval(body), cond0, loops0);
      case WhileAfterBody(cond, body, until) =>
        AfterBodyBalanced(c, WhileCheck(cond, body, until, c.sh.status), cond0, loops0);
      case ForNext(name, items, body, next, bodyStatus) =>
        if next < |items| {
          Push2Balanced(c.(sh := Bind(name, items[next], c.sh)), ForAfterBody(name, items, body, next + 1), Eval(body),
                        cond0, loops0);
        }
      case ForAfterBody(name, items, body, next) =>
        AfterBodyBalanced(c, ForNext(name, items, body, next, c.sh.status), cond0, loops0);
      case FinishLoop =>
      case FinishErrorTrap(_, _) =>
    }
  }

  lemma StepBalanced(env: Env, c: Config, cond0: nat, loops0: nat)
    requires Balanced(c, cond0, loops0) && cond0 + MAX_SHELL_FRAMES <= U32_MAX && loops0 + MAX_SHELL_FRAMES <= U32_MAX
    ensures Balanced(Step(env, c), cond0, loops0)
  {
    hide Fire;
    if c.frames != [] {
      var top := |c.frames| - 1;
      assert c.frames == c.frames[..top] + [c.frames[top]];
      FireBalanced(env, c.frames[top], c.(frames := c.frames[..top]), cond0, loops0);
    }
  }

  /** Over every run, whatever program and oracle drive it and whether or not the stack overflows,
      `cond_depth` and `loop_depth` exceed their starting values by exactly the condition frames
      and `FinishLoop` frames on the stack. */
  lemma {:induction false} RunBalanced(env: Env, k: nat, c: Config, cond0: nat, loops0: nat)
    requires Balanced(c, cond0, loops0) && cond0 + MAX_SHELL_FRAMES <= U32_MAX && loops0 + MAX_SHELL_FRAMES <= U32_MAX
    ensures Balanced(Steps(env, k, c), cond0, loops0)
  {
    hide Step, CondFrames, LoopFrames;
    if k > 0 {
      StepBalanced(env, c, cond0, loops0);
      RunBalanced(env, k - 1, Step(env, c), cond0, loops0);
    }
  }

  /** The step at the top of the stack ends the shell because of `set -e`. */
  ghost predicate ErrexitStep(env: Env, c: Config) {
    c.frames != [] && c.frames[|c.frames| - 1].Sequence? && c.flags.exiting.None? && Step(env, c).flags.exiting.Some?
  }

  /** The step at the top of the stack starts the ERR trap. */
  ghost predicate TrapStep(env: Env, c: Config) {
    && c.frames != [] && c.frames[|c.frames| - 1].CheckError?
    && |Step(env, c).frames| > |c.frames|
  }

  /** In every state of every run from a shell at condition depth zero, neither `set -e` nor the
      ERR trap acts while a condition frame is anywhere on the stack. */
  lemma FailuresUnderConditionsIgnored(env: Env, k: nat, node: Node, start: Config)
    requires start.frames == [Eval(node)] && start.cond == 0 && start.loops + MAX_SHELL_FRAMES <= U32_MAX
    ensures var c := Steps(env, k, start); ErrexitStep(env, c) || TrapStep(env, c) ==> CondFrames(c.frames) == 0
  {
    hide Steps;
    CountsOn([], Eval(node));
    assert [] + [Eval(node)] == start.frames;
    RunBalanced(env, k, start, 0, start.loops);
    FiresOnlyAtDepthZero(env, Steps(env, k, start));
  }

  lemma FiresOnlyAtDepthZero(env: Env, c: Config)
    ensures ErrexitStep(env, c) || TrapStep(env, c) ==> c.cond == 0
  {
  }
}
