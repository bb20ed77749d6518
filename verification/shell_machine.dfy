// The shell's control-flow fragment: syntax, the oracle that stands for everything a simple
// command can do, and the frame machine of src/exec.rs as a transition function.

module ShellSyntax {
  import opened Basics

  datatype Branch = Branch(cond: Node, body: Node)

  /** The control-flow part of the shell's syntax tree. Commands and word lists are opaque names:
      what they do is decided by the oracle. */
  datatype Node =
    | Empty
    | Command(cmd: nat)
    | And(lhs: Node, rhs: Node)
    | Or(lhs: Node, rhs: Node)
    | Not(inner: Node)
    | Seq(nodes: seq<Node>)
    | Group(inner: Node)
    | If(cond: Node, body: Node, elifs: seq<Branch>, els: Option<Node>)
    | While(cond: Node, body: Node, until: bool)
    | For(name: string, words: nat, body: Node)

  /** The branch list an `if` pushes: its own condition and body, then the `elif`s. */
  function Branches(node: Node): seq<Branch>
    requires node.If?
  {
    [Branch(node.cond, node.body)] + node.elifs
  }

  type pos = n: nat | n > 0 witness 1

  /** What a simple command asks of the interpreter once it has finished. */
  datatype Action =
    | Done(status: int)
    | BreakLoops(count: nat)
    | ContinueLoops(count: nat)
    | ReturnWith(code: int)
    | ExitWith(code: int)

  /** What a simple command can see of the interpreter's control state. */
  datatype Request = Request(cmd: nat, last: int, cond: nat, loops: nat)

  datatype Reply = Reply(action: Action, errexit: bool)

  datatype WordsReply = Items(items: seq<string>) | Failed(status: int, abortShell: bool)

  /** One entry of the execution trace. `bodies` counts the loop bodies the command ran in; the
      command itself cannot see it. */
  datatype Event =
    | Ran(request: Request, bodies: nat, reply: Reply)
    | Expanded(words: nat, outcome: WordsReply)
    | Bound(name: string, item: string)

  /** Commands and word expansion may depend on everything that happened before. */
  datatype Oracle = Oracle(
    command: (seq<Event>, Request) -> Reply,
    words: (seq<Event>, nat) -> WordsReply)

  /** A pending transfer of control. `Normal` means that none is pending. */
  datatype Signal =
    | Normal
    | Break(count: pos)
    | Continue(count: pos)
    | Return(code: int)
    | Exit(code: int)

  /** Interpreter state that control flow reads and writes, apart from the counters and flags. */
  datatype Shell = Shell(
    status: int,
    exempt: bool,
    errexit: bool,
    pipeStatus: int,
    handling: bool,
    trace: seq<Event>)

  /** The status and signal left by an action; `break` and `continue` outside a loop, or with a
      zero count, fail with status 1 and raise nothing. */
  function Outcome(action: Action, loops: nat): (int, Signal) {
    match action
    case Done(status) => (status, Normal)
    case BreakLoops(n) => if loops == 0 || n == 0 then (1, Normal) else (0, Break(n))
    case ContinueLoops(n) => if loops == 0 || n == 0 then (1, Normal) else (0, Continue(n))
    case ReturnWith(code) => (code, Return(code))
    case ExitWith(code) => (code, Exit(code))
  }

  /** Run one simple command: ask the oracle, record the event, apply the action. */
  function Perform(o: Oracle, cmd: nat, last: int, cond: nat, loops: nat, bodies: nat, sh: Shell): (Shell, Signal) {
    var request := Request(cmd, last, cond, loops);
    var reply := o.command(sh.trace, request);
    var (status, signal) := Outcome(reply.action, loops);
    (sh.(status := status, errexit := reply.errexit, trace := sh.trace + [Ran(request, bodies, reply)]), signal)
  }

  /** Expand the words of a `for`. */
  function Expand(o: Oracle, words: nat, sh: Shell): (Shell, WordsReply) {
    var outcome := o.words(sh.trace, words);
    (sh.(trace := sh.trace + [Expanded(words, outcome)]), outcome)
  }

  function Bind(name: string, item: string, sh: Shell): Shell {
    sh.(trace := sh.trace + [Bound(name, item)])
  }
}

module FrameMachine {
  import opened Basics
  import opened ShellSyntax

  const MAX_SHELL_FRAMES: nat := 4096
  const U32_MAX: nat := 0xFFFF_FFFF

  datatype Frame =
    | Eval(node: Node)
    | RecordPipeStatus
    | CheckError
    | PrepareCommand(cmd: nat)
    | PrepareFor(name: string, words: nat, body: Node)
    | Sequence(nodes: seq<Node>, next: nat)
    | Conditional(rhs: Node, runOnSuccess: bool)
    | Negate
    | IfNext(branches: seq<Branch>, next: nat, els: Option<Node>)
    | IfAfter(branches: seq<Branch>, next: nat, els: Option<Node>)
    | WhileCheck(cond: Node, body: Node, until: bool, bodyStatus: int)
    | WhileAfterCondition(cond: Node, body: Node, until: bool, bodyStatus: int)
    | WhileAfterBody(cond: Node, body: Node, until: bool)
    | ForNext(name: string, items: seq<string>, body: Node, next: nat, bodyStatus: int)
    | ForAfterBody(name: string, items: seq<string>, body: Node, next: nat)
    | FinishLoop
    | FinishErrorTrap(previousStatus: int, savedExempt: bool)

  /** The pending-transfer flags of the interpreter, kept as separate fields as the source does. */
  datatype Flags = Flags(brk: nat, cont: nat, returning: Option<int>, exiting: Option<int>)

  const CLEAR := Flags(0, 0, None, None)

  /** The parameters of a run: the oracle and the ERR trap's body, if one is set. */
  datatype Env = Env(oracle: Oracle, handler: Option<Node>)

  /** A machine state. The top of the stack is the last frame. */
  datatype Config = Config(frames: seq<Frame>, sh: Shell, cond: nat, loops: nat, flags: Flags, last: int)

  predicate ShouldUnwind(flags: Flags) {
    flags.exiting.Some? || flags.returning.Some? || flags.brk > 0 || flags.cont > 0
  }

  function FlagsOf(signal: Signal): Flags {
    match signal
    case Normal => CLEAR
    case Break(n) => CLEAR.(brk := n)
    case Continue(n) => CLEAR.(cont := n)
    case Return(code) => CLEAR.(returning := Some(code))
    case Exit(code) => CLEAR.(exiting := Some(code))
  }

  /** Flags after a command that raised `signal` while `flags` were pending. */
  function Raise(flags: Flags, signal: Signal): Flags {
    match signal
    case Normal => flags
    case Break(n) => flags.(brk := n)
    case Continue(n) => flags.(cont := n)
    case Return(code) => flags.(returning := Some(code))
    case Exit(code) => flags.(exiting := Some(code))
  }

  function SatInc(n: nat): nat {
    if n >= U32_MAX then U32_MAX else n + 1
  }

  function SatSub(n: nat, k: nat): nat {
    if n <= k then 0 else n - k
  }

  predicate IsCondFrame(f: Frame) {
    f.Conditional? || f.Negate? || f.IfAfter? || f.WhileAfterCondition?
  }

  predicate IsBodyFrame(f: Frame) {
    f.WhileAfterBody? || f.ForAfterBody?
  }

  /** Frames that undo one increment of `cond_depth` when they are popped or aborted. */
  function CondFrames(frames: seq<Frame>): nat {
    if frames == [] then 0
    else CondFrames(frames[..|frames| - 1]) + if IsCondFrame(frames[|frames| - 1]) then 1 else 0
  }

  function LoopFrames(frames: seq<Frame>): nat {
    if frames == [] then 0
    else LoopFrames(frames[..|frames| - 1]) + if frames[|frames| - 1].FinishLoop? then 1 else 0
  }

  function TrapFrames(frames: seq<Frame>): nat {
    if frames == [] then 0
    else TrapFrames(frames[..|frames| - 1]) + if frames[|frames| - 1].FinishErrorTrap? then 1 else 0
  }

  /** Loop bodies that are currently running. */
  function BodyFrames(frames: seq<Frame>): nat {
    if frames == [] then 0
    else BodyFrames(frames[..|frames| - 1]) + if IsBodyFrame(frames[|frames| - 1]) then 1 else 0
  }

  /** Drop the whole stack, giving back every counter its frames hold. */
  function Abort(c: Config): Config {
    Config([], if TrapFrames(c.frames) > 0 then c.sh.(handling := false) else c.sh,
           SatSub(c.cond, CondFrames(c.frames)), SatSub(c.loops, LoopFrames(c.frames)), c.flags, c.last)
  }

  function Overflow(c: Config): Config {
    Abort(c.(sh := c.sh.(status := 2)))
  }

  function Push(c: Config, f: Frame): Config {
    if |c.frames| >= MAX_SHELL_FRAMES then Overflow(c) else c.(frames := c.frames + [f])
  }

  /** Push `f`, then `g` if the first push was accepted. */
  function Push2(c: Config, f: Frame, g: Frame): Config {
    if |c.frames| >= MAX_SHELL_FRAMES then Overflow(c) else Push(c.(frames := c.frames + [f]), g)
  }

  /** Push two frames only if both fit. */
  function PushBoth(c: Config, f: Frame, g: Frame): Config {
    if |c.frames| + 2 > MAX_SHELL_FRAMES then Overflow(c) else c.(frames := c.frames + [f] + [g])
  }

  function SetStatus(c: Config, status: int): Config {
    c.(sh := c.sh.(status := status))
  }

  function SetExempt(c: Config, exempt: bool): Config {
    c.(sh := c.sh.(exempt := exempt))
  }

  /** Evaluate a node whose frame was just popped. */
  function EvalNode(c: Config, node: Node): Config {
    if ShouldUnwind(c.flags) then SetStatus(c, c.last)
    else match node
      case Empty => SetStatus(c, 0)
      case Command(cmd) =>
        if |c.frames| >= MAX_SHELL_FRAMES then Overflow(c)
        else if |c.frames| + 1 >= MAX_SHELL_FRAMES then Overflow(c.(frames := c.frames + [CheckError]))
        else Push(SetExempt(c.(frames := c.frames + [CheckError] + [RecordPipeStatus]), false), PrepareCommand(cmd))
      case And(lhs, rhs) => Push2(c.(cond := SatInc(c.cond)), Conditional(rhs, true), Eval(lhs))
      case Or(lhs, rhs) => Push2(c.(cond := SatInc(c.cond)), Conditional(rhs, false), Eval(lhs))
      case Not(inner) => Push2(c.(cond := SatInc(c.cond)), Negate, Eval(inner))
      case Seq(nodes) => Push(SetStatus(c, 0), Sequence(nodes, 0))
      case Group(inner) => Push(c, Eval(inner))
      case If(_, _, _, els) => Push(c, IfNext(Branches(node), 0, els))
      case While(cond, body, until) =>
        if |c.frames| + 2 > MAX_SHELL_FRAMES then Overflow(SetStatus(c, 0))
        else PushBoth(SetStatus(c, 0).(loops := SatInc(c.loops)), FinishLoop, WhileCheck(cond, body, until, 0))
      case For(name, words, body) =>
        if |c.frames| + 2 > MAX_SHELL_FRAMES then Overflow(c)
        else PushBoth(c.(loops := SatInc(c.loops)), FinishLoop, PrepareFor(name, words, body))
  }

  /** The ERR trap fires after a failed command outside every condition. */
  predicate TrapFires(env: Env, c: Config) {
    c.sh.status != 0 && c.cond == 0 && !c.sh.exempt && !c.sh.handling && !ShouldUnwind(c.flags) && env.handler.Some?
  }

  /** `set -e` ends the shell at a list's separator after a failed element. */
  predicate ErrexitFires(c: Config) {
    c.sh.status != 0 && c.sh.errexit && c.cond == 0 && !c.sh.exempt
  }

  /** After a loop body: consume one level of break or continue, or go round again. */
  function AfterBody(c: Config, again: Frame): Config {
    if c.flags.brk > 0 then c.(flags := c.flags.(brk := c.flags.brk - 1))
    else
      var c1 := if c.flags.cont > 0 then c.(flags := c.flags.(cont := c.flags.cont - 1)) else c;
      if ShouldUnwind(c1.flags) then c1 else Push(c1, again)
  }

  /** One step of the machine for a frame that was just popped from the stack. */
  function Fire(env: Env, f: Frame, c: Config): Config {
    match f
    case Eval(node) => EvalNode(c, node)
    case RecordPipeStatus => c.(sh := c.sh.(pipeStatus := c.sh.status))
    case CheckError =>
      if TrapFires(env, c) then
        if |c.frames| + 2 > MAX_SHELL_FRAMES then Overflow(c)
        else PushBoth(c.(sh := c.sh.(handling := true)), FinishErrorTrap(c.sh.status, c.sh.exempt),
                      Eval(env.handler.value))
      else c
    case PrepareCommand(cmd) =>
      var (sh, signal) := Perform(env.oracle, cmd, c.last, c.cond, c.loops, BodyFrames(c.frames), c.sh);
      c.(sh := sh, flags := Raise(c.flags, signal))
    case PrepareFor(name, words, body) =>
      if |c.frames| + 1 > MAX_SHELL_FRAMES then Overflow(c)
      else
        var (sh, outcome) := Expand(env.oracle, words, c.sh);
        (match outcome
         case Failed(status, abortShell) =>
           c.(sh := sh.(status := status), flags := if abortShell then c.flags.(exiting := Some(status)) else c.flags)
         case Items(items) =>
           c.(sh := sh.(status := 0), frames := c.frames + [ForNext(name, items, body, 0, 0)]))
    case Sequence(nodes, next) =>
      if next > 0 && ShouldUnwind(c.flags) then c
      else if next > 0 && ErrexitFires(c) then c.(flags := c.flags.(exiting := Some(c.sh.status)))
      else if next < |nodes| then Push2(c, Sequence(nodes, next + 1), Eval(nodes[next]))
      else c
    case Conditional(rhs, runOnSuccess) =>
      var c1 := c.(cond := SatSub(c.cond, 1));
      if ShouldUnwind(c.flags) then c1
      else if (c.sh.status == 0) == runOnSuccess then Push(SetExempt(c1, false), Eval(rhs))
      else SetExempt(c1, true)
    case Negate =>
      SetExempt(SetStatus(c.(cond := SatSub(c.cond, 1)), if c.sh.status == 0 then 1 else 0), true)
    case IfNext(branches, next, els) =>
      if next < |branches| then Push2(c.(cond := SatInc(c.cond)), IfAfter(branches, next, els),
                                      Eval(branches[next].cond))
      else if els.Some? then Push(c, Eval(els.value))
      else SetStatus(c, 0)
    case IfAfter(branches, next, els) =>
      var c1 := c.(cond := SatSub(c.cond, 1));
      if ShouldUnwind(c.flags) then c1
      else if c.sh.status == 0 && next < |branches| then Push(c1, Eval(branches[next].body))
      else Push(c1, IfNext(branches, next + 1, els))
    case WhileCheck(cond, body, until, bodyStatus) =>
      if ShouldUnwind(c.flags) then SetStatus(c, bodyStatus)
      else Push2(c.(cond := SatInc(c.cond)), WhileAfterCondition(cond, body, until, bodyStatus), Eval(cond))
    case WhileAfterCondition(cond, body, until, bodyStatus) =>
      var c1 := c.(cond := SatSub(c.cond, 1));
      if (c.sh.status == 0) != until && !ShouldUnwind(c.flags) then Push2(c1, WhileAfterBody(cond, body, until),
                                                                          Eval(body))
      else SetStatus(c1, bodyStatus)
    case WhileAfterBody(cond, body, until) => AfterBody(c, WhileCheck(cond, body, until, c.sh.status))
    case ForNext(name, items, body, next, bodyStatus) =>
      if ShouldUnwind(c.flags) then SetStatus(c, bodyStatus)
      else if next < |items| then
        Push2(c.(sh := Bind(name, items[next], c.sh)), ForAfterBody(name, items, body, next + 1), Eval(body))
      else SetStatus(c, bodyStatus)
    case ForAfterBody(name, items, body, next) => AfterBody(c, ForNext(name, items, body, next, c.sh.status))
    case FinishLoop => c.(loops := SatSub(c.loops, 1))
    case FinishErrorTrap(previousStatus, savedExempt) =>
      c.(sh := c.sh.(handling := false,
                     status := if c.flags.exiting.Some? then c.flags.exiting.value else previousStatus,
                     exempt := savedExempt))
  }

  /** Pop one frame, fire it and publish the status as `$?`. An empty stack stays as it is. */
  function Step(env: Env, c: Config): Config {
    if c.frames == [] then c
    else
      var top := |c.frames| - 1;
      var c1 := Fire(env, c.frames[top], c.(frames := c.frames[..top]));
      c1.(last := c1.sh.status)
  }

  function Steps(env: Env, k: nat, c: Config): Config {
    if k == 0 then c else Steps(env, k - 1, Step(env, c))
  }
}
