// What a step of the frame machine does to the stack below it, at the frame limit too, and that the ERR trap
// never runs inside itself.

module FrameLimits {
  import opened Basics
  import opened ShellSyntax
  import opened FrameMachine
  import FrameCounters

  /** The frames below are kept and at most three are put on them. */
  predicate Stacked(below: seq<Frame>, d: Config) {
    below <= d.frames && |d.frames| <= |below| + 3 && |d.frames| <= MAX_SHELL_FRAMES
  }

  /** The stack was given up at the limit: it is empty and the status is 2. */
  predicate Aborted(below: seq<Frame>, d: Config) {
    d.frames == [] && d.sh.status == 2 && |below| + 3 > MAX_SHELL_FRAMES
  }

  predicate StackedOrAborted(below: seq<Frame>, d: Config) {
    Stacked(below, d) || Aborted(below, d)
  }

  /** The trap's frame is on the stack at most once, exactly while the trap is being handled. */
  predicate Guarded(c: Config) {
    TrapFrames(c.frames) <= 1 && (c.sh.handling <==> TrapFrames(c.frames) == 1)
  }

  // ----- Pushing -----

  lemma OverflowGuarded(c: Config)
    requires Guarded(c)
    ensures Guarded(Overflow(c)) && Overflow(c).frames == [] && Overflow(c).sh.status == 2
  {
    hide CondFrames, LoopFrames;
    FrameCounters.CountsOfNone();
  }

  lemma PushGuarded(c: Config, f: Frame)
    requires Guarded(c) && !f.FinishErrorTrap?
    ensures Guarded(Push(c, f))
    ensures |c.frames| <= MAX_SHELL_FRAMES ==> StackedOrAborted(c.frames, Push(c, f))
  {
    hide Overflow, TrapFrames;
    FrameCounters.CountsOn(c.frames, f);
    OverflowGuarded(c);
  }

  lemma Push2Guarded(c: Config, f: Frame, g: Frame)
    requires Guarded(c) && !f.FinishErrorTrap? && !g.FinishErrorTrap?
    ensures Guarded(Push2(c, f, g))
    ensures |c.frames| <= MAX_SHELL_FRAMES ==> StackedOrAborted(c.frames, Push2(c, f, g))
  {
    hide Overflow, TrapFrames;
    FrameCounters.CountsOn(c.frames, f);
    FrameCounters.CountsOn(c.frames + [f], g);
    OverflowGuarded(c);
    OverflowGuarded(if |c.frames| < MAX_SHELL_FRAMES then c.(frames := c.frames + [f]) else c);
  }

  lemma PushBothGuarded(c: Config, f: Frame, g: Frame)
    requires Guarded(c) && !f.FinishErrorTrap? && !g.FinishErrorTrap?
    ensures Guarded(PushBoth(c, f, g))
    ensures |c.frames| <= MAX_SHELL_FRAMES ==> StackedOrAborted(c.frames, PushBoth(c, f, g))
  {
    hide Overflow, TrapFrames;
    FrameCounters.CountsOn(c.frames, f);
    FrameCounters.CountsOn(c.frames + [f], g);
    OverflowGuarded(c);
  }

  // ----- Steps -----

  lemma CommandGuarded(c: Config, cmd: nat)
    requires Guarded(c) && |c.frames| < MAX_SHELL_FRAMES
    ensures var d := EvalNode(c, Command(cmd)); Guarded(d) && StackedOrAborted(c.frames, d)
  {
    hide Overflow, TrapFrames, Push;
    var one := c.(frames := c.frames + [CheckError]);
    FrameCounters.CountsOn(c.frames, CheckError);
    FrameCounters.CountsOn(one.frames, RecordPipeStatus);
    OverflowGuarded(one);
    var two := SetExempt(c.(frames := c.frames + [CheckError] + [RecordPipeStatus]), false);
    PushGuarded(two, PrepareCommand(cmd));
    if |two.frames| <= MAX_SHELL_FRAMES {
      DeeperStacked(c.frames, two, PrepareCommand(cmd));
    }
  }

  lemma DeeperStacked(below: seq<Frame>, c: Config, f: Frame)
    requires below <= c.frames && |c.frames| == |below| + 2 && |c.frames| <= MAX_SHELL_FRAMES
    ensures StackedOrAborted(below, Push(c, f))
  {
    hide CondFrames, LoopFrames, TrapFrames;
  }

  lemma EvalGuarded(c: Config, node: Node)
    requires Guarded(c) && |c.frames| < MAX_SHELL_FRAMES
    ensures var d := EvalNode(c, node); Guarded(d) && StackedOrAborted(c.frames, d)
  {
    hide Overflow, TrapFrames, Push, Push2, PushBoth, Branches;
    var inc := c.(cond := SatInc(c.cond));
    match node {
      case Empty =>
      case Command(cmd) => CommandGuarded(c, cmd);
      case And(lhs, rhs) => Push2Guarded(inc, Conditional(rhs, true), Eval(lhs));
      case Or(lhs, rhs) => Push2Guarded(inc, Conditional(rhs, false), Eval(lhs));
      case Not(inner) => Push2Guarded(inc, Negate, Eval(inner));
      case Seq(nodes) => PushGuarded(SetStatus(c, 0), Sequence(nodes, 0));
      case Group(inner) => PushGuarded(c, Eval(inner));
      case If(_, _, _, els) => PushGuarded(c, IfNext(Branches(node), 0, els));
      case While(cond, body, until) =>
        OverflowGuarded(SetStatus(c, 0));
        PushBothGuarded(SetStatus(c, 0).(loops := SatInc(c.loops)), FinishLoop, WhileCheck(cond, body, until, 0));
      case For(name, words, body) =>
        OverflowGuarded(c);
        PushBothGuarded(c.(loops := SatInc(c.loops)), FinishLoop, PrepareFor(name, words, body));
    }
  }

  lemma AfterBodyGuarded(c: Config, again: Frame)
    requires Guarded(c) && |c.frames| < MAX_SHELL_FRAMES && !again.FinishErrorTrap?
    ensures var d := AfterBody(c, again); Guarded(d) && StackedOrAborted(c.frames, d)
  {
    hide Push, TrapFrames;
    PushGuarded(c, again);
    PushGuarded(c.(flags := c.flags.(cont := if c.flags.cont > 0 then c.flags.cont - 1 else 0)), again);
  }

  /** The trap starts only when it is not being handled, and then its frame guards it. */
  lemma TrapGuarded(env: Env, c: Config)
    requires Guarded(c) && |c.frames| < MAX_SHELL_FRAMES
    ensures var d := Fire(env, CheckError, c); Guarded(d) && StackedOrAborted(c.frames, d)
  {
    hide Overflow, TrapFrames;
    OverflowGuarded(c);
    if env.handler.Some? {
      var g := FinishErrorTrap(c.sh.status, c.sh.exempt);
      FrameCounters.CountsOn(c.frames, g);
      FrameCounters.CountsOn(c.frames + [g], Eval(env.handler.value));
    }
  }

  lemma WordsGuarded(env: Env, f: Frame, c: Config)
    requires f.PrepareFor? && Guarded(c) && |c.frames| < MAX_SHELL_FRAMES
    ensures var d := Fire(env, f, c); Guarded(d) && StackedOrAborted(c.frames, d)
  {
    hide Overflow, TrapFrames;
    var (sh, outcome) := Expand(env.oracle, f.words, c.sh);
    if outcome.Items? {
      FrameCounters.CountsOn(c.frames, ForNext(f.name, outcome.items, f.body, 0, 0));
    }
  }

  lemma LoopGuarded(env: Env, f: Frame, c: Config)
    requires f.WhileCheck? || f.WhileAfterCondition? || f.WhileAfterBody? || f.ForNext? || f.ForAfterBody?
    requires Guarded(c) && |c.frames| < MAX_SHELL_FRAMES
    ensures var d := Fire(env, f, c); Guarded(d) && StackedOrAborted(c.frames, d)
  {
    hide TrapFrames, Push, Push2, AfterBody;
    var dec, inc := c.(cond := SatSub(c.cond, 1)), c.(cond := SatInc(c.cond));
    match f
    case WhileCheck(cond, body, until, bodyStatus) =>
      Push2Guarded(inc, WhileAfterCondition(cond, body, until, bodyStatus), Eval(cond));
    case WhileAfterCondition(cond, body, until, _) => Push2Guarded(dec, WhileAfterBody(cond, body, until), Eval(body));
    case WhileAfterBody(cond, body, until) => AfterBodyGuarded(c, WhileCheck(cond, body, until, c.sh.status));
    case ForNext(name, items, body, next, _) =>
      if next < |items| {
        Push2Guarded(c.(sh := Bind(name, items[next], c.sh)), ForAfterBody(name, items, body, next + 1), Eval(body));
      }
    case ForAfterBody(name, items, body, next) => AfterBodyGuarded(c, ForNext(name, items, body, next, c.sh.status));
  }

  lemma FireGuarded(env: Env, f: Frame, c: Config)
    requires Guarded(c) && |c.frames| < MAX_SHELL_FRAMES && !f.FinishErrorTrap?
    ensures var d := Fire(env, f, c); Guarded(d) && StackedOrAborted(c.frames, d)
  {
    hide Overflow, TrapFrames, Push, Push2, AfterBody, EvalNode, BodyFrames;
    var dec, inc := c.(cond := SatSub(c.cond, 1)), c.(cond := SatInc(c.cond));
    match f
    case Eval(node) => EvalGuarded(c, node);
    case CheckError => TrapGuarded(env, c);
    case PrepareFor(_, _, _) => WordsGuarded(env, f, c);
    case Sequence(nodes, next) =>
      if next < |nodes| {
        Push2Guarded(c, Sequence(nodes, next + 1), Eval(nodes[next]));
      }
    case Conditional(rhs, _) => PushGuarded(SetExempt(dec, false), Eval(rhs));
    case IfNext(branches, next, els) =>
      if next < |branches| {
        Push2Guarded(inc, IfAfter(branches, next, els), Eval(branches[next].cond));
      } else if els.Some? {
        PushGuarded(c, Eval(els.value));
      }
    case IfAfter(branches, next, els) =>
      if next < |branches| {
        PushGuarded(dec, Eval(branches[next].body));
      }
      PushGuarded(dec, IfNext(branches, next + 1, els));
    case RecordPipeStatus =>
    case PrepareCommand(_) =>
    case Negate =>
    case FinishLoop =>
    case _ => LoopGuarded(env, f, c);
  }

  /** A step takes one frame and keeps the rest; at the limit it gives up the whole stack with status 2. The trap
      stays guarded. */
  lemma StepKeepsStack(env: Env, c: Config)
    requires Guarded(c) && c.frames != [] && |c.frames| <= MAX_SHELL_FRAMES
    ensures Guarded(Step(env, c)) && StackedOrAborted(c.frames[..|c.frames| - 1], Step(env, c))
  {
    hide Fire, TrapFrames;
    var top := |c.frames| - 1;
    var f, c1 := c.frames[top], c.(frames := c.frames[..top]);
    assert c.frames == c1.frames + [f];
    FrameCounters.CountsOn(c1.frames, f);
    if f.FinishErrorTrap? {
      TrapEnds(env, f, c1);
    } else {
      FireGuarded(env, f, c1);
    }
  }

  lemma TrapEnds(env: Env, f: Frame, c: Config)
    requires f.FinishErrorTrap?
    ensures Fire(env, f, c).frames == c.frames && !Fire(env, f, c).sh.handling
  {
  }

  /** Over every run: the ERR trap is never started while it runs. */
  lemma {:induction false} TrapNeverNests(env: Env, k: nat, c: Config)
    requires Guarded(c) && |c.frames| <= MAX_SHELL_FRAMES
    ensures Guarded(Steps(env, k, c)) && |Steps(env, k, c).frames| <= MAX_SHELL_FRAMES
  {
    hide Step, Guarded;
    if k > 0 {
      if c.frames != [] {
        StepKeepsStack(env, c);
      } else {
        Idle(env, c);
      }
      TrapNeverNests(env, k - 1, Step(env, c));
    }
  }

  lemma Idle(env: Env, c: Config)
    requires c.frames == []
    ensures Step(env, c) == c
  {
  }
}
