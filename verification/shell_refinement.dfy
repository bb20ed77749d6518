// The frame machine and the recursive evaluator agree: on every program whose frames fit, the
// machine returns to the stack it started on exactly when the evaluator finishes, with the same
// status, signal, `set -e` decisions, ERR-trap runs and command trace.

module FrameRefinement {
  import opened Basics
  import opened ShellSyntax
  import opened FrameMachine
  import opened Evaluator

  // ----- Static stack height -----

  function Max(a: nat, b: nat): nat {
    if a < b then b else a
  }

  /** Frames that evaluating `node` can put on the stack, when an ERR trap needs `trap` of them. */
  function Height(node: Node, trap: nat): (h: nat)
    ensures h > 0
    decreases node, 0
  {
    match node
    case Empty => 1
    case Command(_) => Max(3, trap)
    case And(lhs, rhs) => Max(1 + Height(lhs, trap), Height(rhs, trap))
    case Or(lhs, rhs) => Max(1 + Height(lhs, trap), Height(rhs, trap))
    case Not(inner) => 1 + Height(inner, trap)
    case Seq(nodes) => 1 + NodesHeight(nodes, trap)
    case Group(inner) => Height(inner, trap)
    case If(cond, body, elifs, els) =>
      Max(Max(1 + Height(cond, trap), Height(body, trap)),
          Max(BranchesHeight(elifs, trap), if els.Some? then Height(els.value, trap) else 0))
    case While(cond, body, _) => 2 + Max(Height(cond, trap), Height(body, trap))
    case For(_, _, body) => 2 + Height(body, trap)
  }

  function NodesHeight(nodes: seq<Node>, trap: nat): nat
    decreases nodes, 1
  {
    if nodes == [] then 0 else Max(Height(nodes[0], trap), NodesHeight(nodes[1..], trap))
  }

  function BranchHeight(branch: Branch, trap: nat): nat
    decreases branch, 0
  {
    Max(1 + Height(branch.cond, trap), Height(branch.body, trap))
  }

  function BranchesHeight(branches: seq<Branch>, trap: nat): nat
    decreases branches, 1
  {
    if branches == [] then 0 else Max(BranchHeight(branches[0], trap), BranchesHeight(branches[1..], trap))
  }

  lemma {:induction false} NodesHeightAt(nodes: seq<Node>, trap: nat, i: nat)
    requires i < |nodes|
    ensures Height(nodes[i], trap) <= NodesHeight(nodes, trap)
  {
    if i > 0 {
      NodesHeightAt(nodes[1..], trap, i - 1);
    }
  }

  lemma {:induction false} BranchesHeightAt(branches: seq<Branch>, trap: nat, i: nat)
    requires i < |branches|
    ensures 1 + Height(branches[i].cond, trap) <= BranchesHeight(branches, trap)
    ensures Height(branches[i].body, trap) <= BranchesHeight(branches, trap)
  {
    if i > 0 {
      BranchesHeightAt(branches[1..], trap, i - 1);
    }
  }

  /** What a node's height leaves for its parts. */
  lemma HeightParts(node: Node, trap: nat)
    ensures node.Command? ==> Height(node, trap) >= 3 && Height(node, trap) >= trap
    ensures node.And? || node.Or? ==>
              Height(node, trap) >= 1 + Height(node.lhs, trap) && Height(node, trap) >= Height(node.rhs, trap)
    ensures node.Not? ==> Height(node, trap) == 1 + Height(node.inner, trap)
    ensures node.Seq? ==> Height(node, trap) == 1 + NodesHeight(node.nodes, trap)
    ensures node.Group? ==> Height(node, trap) == Height(node.inner, trap)
    ensures node.If? ==> Height(node, trap) >= BranchesHeight(Branches(node), trap)
    ensures node.If? && node.els.Some? ==> Height(node, trap) >= Height(node.els.value, trap)
    ensures node.While? ==> Height(node, trap) == 2 + Max(Height(node.cond, trap), Height(node.body, trap))
    ensures node.For? ==> Height(node, trap) == 2 + Height(node.body, trap)
  {
    if node.If? {
      assert Branches(node)[1..] == node.elifs;
    }
  }

  /** Frames needed above a finished command when its ERR trap runs. */
  function TrapHeight(env: Env, handling: bool): nat {
    if handling || env.handler.None? then 0 else 1 + Height(env.handler.value, 0)
  }

  // ----- Configurations and runs -----

  function On(b: Config, f: Frame): Config {
    b.(frames := b.frames + [f])
  }

  function ContextOf(b: Config): Context {
    Context(b.cond, b.loops, BodyFrames(b.frames))
  }

  /** Counters cannot saturate while the stack grows to its limit. */
  predicate Roomy(b: Config) {
    && b.cond + MAX_SHELL_FRAMES <= U32_MAX + |b.frames|
    && b.loops + MAX_SHELL_FRAMES <= U32_MAX + |b.frames|
  }

  /** `height` more frames fit above `b`, no transfer is pending and the counters have room. */
  predicate Fits(b: Config, height: nat) {
    b.flags == CLEAR && Roomy(b) && |b.frames| + height <= MAX_SHELL_FRAMES
  }

  predicate NodeFits(env: Env, node: Node, b: Config) {
    Fits(b, Height(node, TrapHeight(env, b.sh.handling)))
  }

  /** During the first `k` steps from `c` the stack stays higher than `h`. */
  ghost predicate Above(env: Env, c: Config, k: nat, h: nat) {
    forall j: nat :: j < k ==> |Steps(env, j, c).frames| > h
  }

  function Returned(b: Config, signal: Signal, sh: Shell): Config {
    b.(sh := sh, flags := FlagsOf(signal), last := sh.status)
  }

  /** The machine started in `c` does what `result` says, relative to the stack of `b`: it comes
      back to that stack for the first time after `k` steps, or stays above it for `fuel` steps. */
  ghost predicate Simulated(env: Env, fuel: nat, c: Config, b: Config, result: Result, k: nat) {
    match result
    case None => Above(env, c, fuel, |b.frames|)
    case Some((signal, sh)) =>
      && k > 0
      && Above(env, c, k, |b.frames|)
      && Steps(env, k, c) == Returned(b, signal, sh)
      && sh.handling == b.sh.handling
  }

  lemma {:induction false} StepsAdd(env: Env, m: nat, n: nat, c: Config)
    ensures Steps(env, m + n, c) == Steps(env, n, Steps(env, m, c))
  {
    hide FrameMachine.Step;
    if m > 0 {
      StepsAdd(env, m - 1, n, Step(env, c));
    }
  }

  /** The state after `f` fired on top of `b`. */
  function Fired(env: Env, f: Frame, b: Config): Config {
    var c := Fire(env, f, b);
    c.(last := c.sh.status)
  }

  lemma StepOn(env: Env, b: Config, f: Frame)
    ensures Step(env, On(b, f)) == Fired(env, f, b)
    ensures Above(env, On(b, f), 1, |b.frames|)
    ensures Steps(env, 1, On(b, f)) == Step(env, On(b, f))
  {
    assert (b.frames + [f])[..|b.frames|] == b.frames;
    assert On(b, f).(frames := b.frames) == b;
    assert Steps(env, 1, On(b, f)) == Steps(env, 0, Step(env, On(b, f)));
  }

  lemma AboveAdd(env: Env, c: Config, m: nat, n: nat, h: nat)
    requires Above(env, c, m, h)
    requires Above(env, Steps(env, m, c), n, h)
    ensures Above(env, c, m + n, h)
  {
    forall j: nat | j < m + n ensures |Steps(env, j, c).frames| > h {
      if j >= m {
        StepsAdd(env, m, j - m, c);
      }
    }
  }

  lemma NothingYet(env: Env, c: Config, h: nat)
    ensures Above(env, c, 0, h)
  {
  }

  /** `m` steps lead from `c` to `d`, all of them taken above height `h`. */
  ghost predicate Leads(env: Env, c: Config, m: nat, d: Config, h: nat) {
    m > 0 && Above(env, c, m, h) && Steps(env, m, c) == d
  }

  lemma FirstStep(env: Env, b: Config, f: Frame)
    ensures Leads(env, On(b, f), 1, Fired(env, f, b), |b.frames|)
  {
    StepOn(env, b, f);
  }

  lemma NextStep(env: Env, c: Config, m: nat, b: Config, f: Frame, h: nat)
    requires Leads(env, c, m, On(b, f), h) && |b.frames| >= h
    ensures Leads(env, c, m + 1, Fired(env, f, b), h)
  {
    StepOn(env, b, f);
    AboveAdd(env, c, m, 1, h);
    StepsAdd(env, m, 1, c);
  }

  /** A part that finished on its own base `b1` is a longer prefix of the whole. */
  lemma PartDone(env: Env, fuel: nat, c: Config, m: nat, d: Config, b1: Config, signal: Signal, sh: Shell, k: nat,
                 h: nat)
    requires Leads(env, c, m, d, h) && |b1.frames| >= h
    requires Simulated(env, fuel, d, b1, Some((signal, sh)), k)
    ensures Leads(env, c, m + k, Returned(b1, signal, sh), h)
  {
    assert Above(env, d, k, h);
    AboveAdd(env, c, m, k, h);
    StepsAdd(env, m, k, c);
  }

  /** A part that does not finish keeps the whole above its base. */
  lemma PartUnfinished(env: Env, fuel: nat, c: Config, m: nat, d: Config, b1: Config, h: nat, k: nat)
    requires Leads(env, c, m, d, h) && |b1.frames| >= h
    requires Simulated(env, fuel, d, b1, None, k)
    ensures Above(env, c, fuel + 1, h)
  {
    assert Above(env, d, fuel, h);
    AboveAdd(env, c, m, fuel, h);
  }

  /** A last part on the same base decides the result of the whole. */
  lemma Prepend(env: Env, fuel: nat, c: Config, m: nat, d: Config, b: Config, result: Result, k: nat)
    requires Leads(env, c, m, d, |b.frames|)
    requires Simulated(env, fuel, d, b, result, k)
    ensures Simulated(env, fuel + 1, c, b, result, m + k)
  {
    match result
    case None =>
      PartUnfinished(env, fuel, c, m, d, b, |b.frames|, k);
    case Some((signal, sh)) =>
      PartDone(env, fuel, c, m, d, b, signal, sh, k, |b.frames|);
  }

  lemma BodyFramesOn(frames: seq<Frame>, f: Frame)
    ensures BodyFrames(frames + [f]) == BodyFrames(frames) + if IsBodyFrame(f) then 1 else 0
  {
    assert (frames + [f])[..|frames|] == frames;
  }

  // ----- What each frame does when everything fits -----

  lemma FireEvalCommand(env: Env, cmd: nat, b: Config)
    requires Fits(b, 3)
    ensures Fired(env, Eval(Command(cmd)), b) ==
            On(On(On(b.(sh := b.sh.(exempt := false), last := b.sh.status), CheckError), RecordPipeStatus),
               PrepareCommand(cmd))
  {
  }

  lemma FirePrepare(env: Env, cmd: nat, b: Config)
    requires b.flags == CLEAR
    ensures Fired(env, PrepareCommand(cmd), b) ==
            var (s, signal) := Perform(env.oracle, cmd, b.last, b.cond, b.loops, BodyFrames(b.frames), b.sh);
            Returned(b, signal, s)
  {
  }

  lemma FireRecord(env: Env, b: Config)
    ensures Fired(env, RecordPipeStatus, b) == b.(sh := b.sh.(pipeStatus := b.sh.status), last := b.sh.status)
  {
  }

  lemma FireCheck(env: Env, b: Config)
    requires TrapFires(env, b) ==> |b.frames| + 2 <= MAX_SHELL_FRAMES
    ensures Fired(env, CheckError, b) ==
            if TrapFires(env, b) then
              On(On(b.(sh := b.sh.(handling := true), last := b.sh.status), FinishErrorTrap(b.sh.status, b.sh.exempt)),
                 Eval(env.handler.value))
            else b.(last := b.sh.status)
  {
  }

  lemma FireFinishTrap(env: Env, b: Config, status: int, exempt: bool, signal: Signal, t: Shell)
    ensures Fired(env, FinishErrorTrap(status, exempt), Returned(b, signal, t)) ==
            Returned(b, signal, t.(handling := false, status := if signal.Exit? then signal.code else status,
                                   exempt := exempt))
  {
  }

  lemma FireEvalAndOr(env: Env, lhs: Node, rhs: Node, onSuccess: bool, b: Config)
    requires Fits(b, 2)
    ensures Fired(env, Eval(if onSuccess then And(lhs, rhs) else Or(lhs, rhs)), b) ==
            On(On(b.(cond := b.cond + 1, last := b.sh.status), Conditional(rhs, onSuccess)), Eval(lhs))
  {
  }

  lemma FireConditional(env: Env, rhs: Node, onSuccess: bool, b: Config, signal: Signal, s: Shell)
    requires |b.frames| < MAX_SHELL_FRAMES
    ensures Fired(env, Conditional(rhs, onSuccess), Returned(b.(cond := b.cond + 1), signal, s)) ==
            if !signal.Normal? then Returned(b, signal, s)
            else if (s.status == 0) == onSuccess then On(Returned(b, Normal, s.(exempt := false)), Eval(rhs))
            else Returned(b, Normal, s.(exempt := true))
  {
  }

  lemma FireEvalNot(env: Env, inner: Node, b: Config)
    requires Fits(b, 2)
    ensures Fired(env, Eval(Not(inner)), b) == On(On(b.(cond := b.cond + 1, last := b.sh.status), Negate), Eval(inner))
  {
  }

  lemma FireNegate(env: Env, b: Config, signal: Signal, s: Shell)
    ensures Fired(env, Negate, Returned(b.(cond := b.cond + 1), signal, s)) ==
            Returned(b, signal, s.(status := if s.status == 0 then 1 else 0, exempt := true))
  {
  }

  lemma FireEvalSimple(env: Env, node: Node, b: Config)
    requires Fits(b, 1)
    ensures node.Empty? ==> Fired(env, Eval(node), b) == Returned(b, Normal, b.sh.(status := 0))
    ensures node.Seq? ==> Fired(env, Eval(node), b) == On(Returned(b, Normal, b.sh.(status := 0)),
                                                          Sequence(node.nodes, 0))
    ensures node.Group? ==> Fired(env, Eval(node), b) == On(Returned(b, Normal, b.sh), Eval(node.inner))
    ensures node.If? ==> Fired(env, Eval(node), b) == On(Returned(b, Normal, b.sh), IfNext(Branches(node), 0, node.els))
  {
  }

  lemma FireSequence(env: Env, nodes: seq<Node>, next: nat, b: Config)
    requires Fits(b, 1) && (next < |nodes| ==> Fits(b, 2))
    ensures Fired(env, Sequence(nodes, next), b) ==
            if next > 0 && ErrexitFires(b) then Returned(b, Exit(b.sh.status), b.sh)
            else if next < |nodes| then On(On(Returned(b, Normal, b.sh), Sequence(nodes, next + 1)), Eval(nodes[next]))
            else Returned(b, Normal, b.sh)
  {
  }

  /** A list stops at its next separator once a signal is pending. */
  lemma FireSequenceUnwinding(env: Env, nodes: seq<Node>, next: nat, b: Config, signal: Signal, s: Shell)
    requires next > 0 && !signal.Normal?
    ensures Fired(env, Sequence(nodes, next), Returned(b, signal, s)) == Returned(b, signal, s)
  {
  }

  lemma FireIfNext(env: Env, branches: seq<Branch>, next: nat, els: Option<Node>, b: Config)
    requires Fits(b, 1) && (next < |branches| ==> Fits(b, 2))
    ensures Fired(env, IfNext(branches, next, els), b) ==
            if next < |branches| then
              On(On(b.(cond := b.cond + 1, last := b.sh.status), IfAfter(branches, next, els)),
                 Eval(branches[next].cond))
            else if els.Some? then On(Returned(b, Normal, b.sh), Eval(els.value))
            else Returned(b, Normal, b.sh.(status := 0))
  {
  }

  lemma FireIfAfter(env: Env, branches: seq<Branch>, next: nat, els: Option<Node>, b: Config, signal: Signal, s: Shell)
    requires next < |branches| && |b.frames| < MAX_SHELL_FRAMES
    ensures Fired(env, IfAfter(branches, next, els), Returned(b.(cond := b.cond + 1), signal, s)) ==
            if !signal.Normal? then Returned(b, signal, s)
            else if s.status == 0 then On(Returned(b, signal, s), Eval(branches[next].body))
            else On(Returned(b, signal, s), IfNext(branches, next + 1, els))
  {
  }

  lemma FireEvalLoop(env: Env, node: Node, b: Config)
    requires Fits(b, 2)
    ensures node.While? ==>
              Fired(env, Eval(node), b) == On(On(b.(loops := b.loops + 1, sh := b.sh.(status := 0), last := 0),
                                                 FinishLoop),
                                              WhileCheck(node.cond, node.body, node.until, 0))
    ensures node.For? ==>
              Fired(env, Eval(node), b) == On(On(b.(loops := b.loops + 1, last := b.sh.status), FinishLoop),
                                              PrepareFor(node.name, node.words, node.body))
  {
  }

  lemma FireFinishLoop(env: Env, b: Config, signal: Signal, s: Shell)
    ensures Fired(env, FinishLoop, Returned(b.(loops := b.loops + 1), signal, s)) == Returned(b, signal, s)
  {
  }

  lemma FireWhileCheck(env: Env, cond: Node, body: Node, until: bool, bodyStatus: int, b: Config)
    requires Fits(b, 2)
    ensures Fired(env, WhileCheck(cond, body, until, bodyStatus), b) ==
            On(On(b.(cond := b.cond + 1, last := b.sh.status), WhileAfterCondition(cond, body, until, bodyStatus)),
               Eval(cond))
  {
  }

  lemma FireWhileAfterCondition(env: Env, cond: Node, body: Node, until: bool, bodyStatus: int, b: Config,
                                signal: Signal, s: Shell)
    requires |b.frames| + 2 <= MAX_SHELL_FRAMES
    ensures Fired(env, WhileAfterCondition(cond, body, until, bodyStatus),
                  Returned(b.(cond := b.cond + 1), signal, s)) ==
            if (s.status == 0) == until || !signal.Normal? then Returned(b, signal, s.(status := bodyStatus))
            else On(On(Returned(b, signal, s), WhileAfterBody(cond, body, until)), Eval(body))
  {
  }

  lemma FireAfterBody(env: Env, f: Frame, b: Config, signal: Signal, s: Shell)
    requires IsBodyFrame(f) && |b.frames| < MAX_SHELL_FRAMES
    ensures Fired(env, f, Returned(b, signal, s)) ==
            if GoesRound(signal) then
              On(Returned(b, Normal, s), if f.WhileAfterBody? then WhileCheck(f.cond, f.body, f.until, s.status)
                                         else ForNext(f.name, f.items, f.body, f.next, s.status))
            else Returned(b, Consume(signal), s)
  {
  }

  lemma FirePrepareFor(env: Env, name: string, words: nat, body: Node, b: Config)
    requires Fits(b, 1)
    ensures Fired(env, PrepareFor(name, words, body), b) ==
            var (s, outcome) := Expand(env.oracle, words, b.sh);
            match outcome
            case Failed(status, abortShell) => Returned(b, if abortShell then Exit(status) else Normal,
                                                        s.(status := status))
            case Items(items) => On(Returned(b, Normal, s.(status := 0)), ForNext(name, items, body, 0, 0))
  {
  }

  lemma FireForNext(env: Env, name: string, items: seq<string>, body: Node, next: nat, bodyStatus: int, b: Config)
    requires Fits(b, 2)
    ensures Fired(env, ForNext(name, items, body, next, bodyStatus), b) ==
            if next < |items| then
              On(On(Returned(b, Normal, Bind(name, items[next], b.sh)), ForAfterBody(name, items, body, next + 1)),
                 Eval(body))
            else Returned(b, Normal, b.sh.(status := bodyStatus))
  {
  }

  // ----- The simulation, one construct at a time -----

  /** What the evaluator makes of a node in the situation of `b`. */
  function Spec(env: Env, fuel: nat, node: Node, b: Config): Result {
    Run(env.oracle, env.handler, fuel, node, ContextOf(b), b.sh)
  }

  lemma SpecCommand(env: Env, fuel: nat, cmd: nat, b: Config)
    requires fuel > 0
    ensures Spec(env, fuel, Command(cmd), b) ==
            RunCommand(env.oracle, env.handler, fuel, cmd, ContextOf(b), b.sh.(exempt := false))
  {
  }

  lemma {:induction false} SimNode(env: Env, fuel: nat, node: Node, b: Config) returns (k: nat)
    requires NodeFits(env, node, b)
    ensures Simulated(env, fuel, On(b, Eval(node)), b, Spec(env, fuel, node, b), k)
    decreases fuel, 1
  {
    hide Above, Height, NodesHeight, BranchesHeight, FrameMachine.Steps, FrameMachine.Fire, Fired;
    HeightParts(node, TrapHeight(env, b.sh.handling));
    if fuel == 0 {
      k := 0;
      NothingYet(env, On(b, Eval(node)), |b.frames|);
      return;
    }
    FirstStep(env, b, Eval(node));
    FireEvalSimple(env, node, b);
    var b1 := Returned(b, Normal, b.sh);
    match node {
      case Empty =>
        k := 1;
      case Command(cmd) =>
        k := SimCommand(env, fuel, cmd, b);
      case And(lhs, rhs) =>
        k := SimAndOr(env, fuel, node, lhs, rhs, true, b);
      case Or(lhs, rhs) =>
        k := SimAndOr(env, fuel, node, lhs, rhs, false, b);
      case Not(inner) =>
        k := SimNot(env, fuel, inner, b);
      case Seq(nodes) =>
        var b2 := Returned(b, Normal, b.sh.(status := 0));
        k := SimSeq(env, fuel - 1, nodes, 0, b2);
        Prepend(env, fuel - 1, On(b, Eval(node)), 1, On(b2, Sequence(nodes, 0)), b, Spec(env, fuel, node, b), k);
        k := 1 + k;
      case Group(inner) =>
        k := SimNode(env, fuel - 1, inner, b1);
        Prepend(env, fuel - 1, On(b, Eval(node)), 1, On(b1, Eval(inner)), b, Spec(env, fuel, node, b), k);
        k := 1 + k;
      case If(_, _, _, els) =>
        k := SimIf(env, fuel - 1, Branches(node), 0, els, b1);
        Prepend(env, fuel - 1, On(b, Eval(node)), 1, On(b1, IfNext(Branches(node), 0, els)), b,
                Spec(env, fuel, node, b), k);
        k := 1 + k;
      case While(cond, body, until) =>
        k := SimWhileNode(env, fuel, node, cond, body, until, b);
      case For(name, words, body) =>
        k := SimForNode(env, fuel, node, name, words, body, b);
    }
  }

  lemma {:induction false} SimCommand(env: Env, fuel: nat, cmd: nat, b: Config) returns (k: nat)
    requires fuel > 0 && NodeFits(env, Command(cmd), b)
    ensures Simulated(env, fuel, On(b, Eval(Command(cmd))), b, Spec(env, fuel, Command(cmd), b), k)
    decreases fuel, 0
  {
    hide Above, Height, NodesHeight, BranchesHeight, FrameMachine.Steps, FrameMachine.Fire, Fired,
         FrameMachine.BodyFrames, Evaluator.Run;
    HeightParts(Command(cmd), TrapHeight(env, b.sh.handling));
    var c, h := On(b, Eval(Command(cmd))), |b.frames|;
    var b1 := b.(sh := b.sh.(exempt := false), last := b.sh.status);
    SpecCommand(env, fuel, cmd, b);
    var p1 := On(On(b1, CheckError), RecordPipeStatus);
    FirstStep(env, b, Eval(Command(cmd)));
    FireEvalCommand(env, cmd, b);
    assert Leads(env, c, 1, On(p1, PrepareCommand(cmd)), h);

    BodyFramesOn(b.frames, CheckError);
    BodyFramesOn(b.frames + [CheckError], RecordPipeStatus);
    var (s, signal) := Perform(env.oracle, cmd, b.sh.status, b.cond, b.loops, BodyFrames(b.frames), b1.sh);
    var b2 := Returned(b, signal, s);
    FirePrepare(env, cmd, p1);
    NextStep(env, c, 1, p1, PrepareCommand(cmd), h);
    assert Leads(env, c, 2, On(On(b2, CheckError), RecordPipeStatus), h);

    var b3 := Returned(b, signal, s.(pipeStatus := s.status));
    FireRecord(env, On(b2, CheckError));
    NextStep(env, c, 2, On(b2, CheckError), RecordPipeStatus, h);
    assert Leads(env, c, 3, On(b3, CheckError), h);

    FireCheck(env, b3);
    NextStep(env, c, 3, b3, CheckError, h);
    k := 4;
    if TrapFires(env, b3) {
      var b4 := b3.(sh := b3.sh.(handling := true));
      var finish := FinishErrorTrap(s.status, s.exempt);
      var d := On(On(b4, finish), Eval(env.handler.value));
      assert Leads(env, c, 4, d, h);
      BodyFramesOn(b.frames, finish);
      var k1 := SimNode(env, fuel - 1, env.handler.value, On(b4, finish));
      match Spec(env, fuel - 1, env.handler.value, On(b4, finish)) {
        case None =>
          PartUnfinished(env, fuel - 1, c, 4, d, On(b4, finish), h, k1);
        case Some((trapped, t)) =>
          PartDone(env, fuel - 1, c, 4, d, On(b4, finish), trapped, t, k1, h);
          FireFinishTrap(env, b4, s.status, s.exempt, trapped, t);
          NextStep(env, c, 4 + k1, Returned(b4, trapped, t), finish, h);
          k := 5 + k1;
      }
    }
  }

  /** The frame and node of `&&` (`onSuccess`) or `||`. */
  lemma {:induction false} SimAndOr(env: Env, fuel: nat, node: Node, lhs: Node, rhs: Node, onSuccess: bool, b: Config)
    returns (k: nat)
    requires fuel > 0 && node == (if onSuccess then And(lhs, rhs) else Or(lhs, rhs)) && NodeFits(env, node, b)
    ensures Simulated(env, fuel, On(b, Eval(node)), b, Spec(env, fuel, node, b), k)
    decreases fuel, 0
  {
    hide Above, Height, NodesHeight, BranchesHeight, FrameMachine.Steps, FrameMachine.Fire, Fired;
    HeightParts(node, TrapHeight(env, b.sh.handling));
    var c, h := On(b, Eval(node)), |b.frames|;
    var f := Conditional(rhs, onSuccess);
    assert Spec(env, fuel, node, b) == RunAndOr(env.oracle, env.handler, fuel, lhs, rhs, onSuccess, ContextOf(b), b.sh);
    var b1 := On(b.(cond := b.cond + 1, last := b.sh.status), f);
    FirstStep(env, b, Eval(node));
    FireEvalAndOr(env, lhs, rhs, onSuccess, b);
    assert Leads(env, c, 1, On(b1, Eval(lhs)), h);
    BodyFramesOn(b.frames, f);
    k := SimNode(env, fuel - 1, lhs, b1);
    match Spec(env, fuel - 1, lhs, b1) {
      case None =>
        PartUnfinished(env, fuel - 1, c, 1, On(b1, Eval(lhs)), b1, h, k);
      case Some((signal, s)) =>
        PartDone(env, fuel - 1, c, 1, On(b1, Eval(lhs)), b1, signal, s, k, h);
        var b2 := Returned(b.(cond := b.cond + 1), signal, s);
        FireConditional(env, rhs, onSuccess, b, signal, s);
        NextStep(env, c, 1 + k, b2, f, h);
        if signal.Normal? && (s.status == 0) == onSuccess {
          var b3 := Returned(b, Normal, s.(exempt := false));
          var k1 := SimNode(env, fuel - 1, rhs, b3);
          Prepend(env, fuel - 1, c, 2 + k, On(b3, Eval(rhs)), b, Spec(env, fuel, node, b), k1);
          k := 2 + k + k1;
        } else {
          k := 2 + k;
        }
    }
  }

  lemma {:induction false} SimNot(env: Env, fuel: nat, inner: Node, b: Config) returns (k: nat)
    requires fuel > 0 && NodeFits(env, Not(inner), b)
    ensures Simulated(env, fuel, On(b, Eval(Not(inner))), b, Spec(env, fuel, Not(inner), b), k)
    decreases fuel, 0
  {
    hide Above, Height, NodesHeight, BranchesHeight, FrameMachine.Steps, FrameMachine.Fire, Fired;
    HeightParts(Not(inner), TrapHeight(env, b.sh.handling));
    var c, h := On(b, Eval(Not(inner))), |b.frames|;
    var b1 := On(b.(cond := b.cond + 1, last := b.sh.status), Negate);
    FirstStep(env, b, Eval(Not(inner)));
    FireEvalNot(env, inner, b);
    assert Leads(env, c, 1, On(b1, Eval(inner)), h);
    BodyFramesOn(b.frames, Negate);
    k := SimNode(env, fuel - 1, inner, b1);
    match Spec(env, fuel - 1, inner, b1) {
      case None =>
        PartUnfinished(env, fuel - 1, c, 1, On(b1, Eval(inner)), b1, h, k);
      case Some((signal, s)) =>
        PartDone(env, fuel - 1, c, 1, On(b1, Eval(inner)), b1, signal, s, k, h);
        FireNegate(env, b, signal, s);
        NextStep(env, c, 1 + k, Returned(b.(cond := b.cond + 1), signal, s), Negate, h);
        k := 2 + k;
    }
  }

  lemma {:induction false} SimSeq(env: Env, fuel: nat, nodes: seq<Node>, next: nat, b: Config) returns (k: nat)
    requires Fits(b, 1 + NodesHeight(nodes, TrapHeight(env, b.sh.handling)))
    ensures Simulated(env, fuel, On(b, Sequence(nodes, next)), b,
                      RunSeq(env.oracle, env.handler, fuel, nodes, next, ContextOf(b), b.sh), k)
    decreases fuel, 0
  {
    hide Above, Height, NodesHeight, BranchesHeight, FrameMachine.Steps, FrameMachine.Fire, Fired,
         FrameMachine.BodyFrames, Evaluator.Run;
    k := 1;
    var f := Sequence(nodes, next);
    var c, h := On(b, f), |b.frames|;
    NothingYet(env, c, h);
    FirstStep(env, b, f);
    if next < |nodes| {
      NodesHeightAt(nodes, TrapHeight(env, b.sh.handling), next);
    }
    FireSequence(env, nodes, next, b);
    if fuel > 0 && !(next > 0 && ErrexitFires(b)) && next < |nodes| {
      var g := Sequence(nodes, next + 1);
      var b1 := On(b.(last := b.sh.status), g);
      assert Leads(env, c, 1, On(b1, Eval(nodes[next])), h);
      BodyFramesOn(b.frames, g);
      k := SimNode(env, fuel - 1, nodes[next], b1);
      match Spec(env, fuel - 1, nodes[next], b1) {
        case None =>
          PartUnfinished(env, fuel - 1, c, 1, On(b1, Eval(nodes[next])), b1, h, k);
        case Some((signal, s)) =>
          PartDone(env, fuel - 1, c, 1, On(b1, Eval(nodes[next])), b1, signal, s, k, h);
          var b2 := Returned(b, signal, s);
          if signal.Normal? {
            var k1 := SimSeq(env, fuel - 1, nodes, next + 1, b2);
            Prepend(env, fuel - 1, c, 1 + k, On(b2, g), b,
                    RunSeq(env.oracle, env.handler, fuel, nodes, next, ContextOf(b), b.sh), k1);
            k := 1 + k + k1;
          } else {
            FireSequenceUnwinding(env, nodes, next + 1, b, signal, s);
            NextStep(env, c, 1 + k, b2, g, h);
            k := 2 + k;
          }
      }
    }
  }

  lemma {:induction false} SimIf(env: Env, fuel: nat, branches: seq<Branch>, next: nat, els: Option<Node>, b: Config)
    returns (k: nat)
    requires Fits(b, Max(BranchesHeight(branches, TrapHeight(env, b.sh.handling)),
                         if els.Some? then Height(els.value, TrapHeight(env, b.sh.handling)) else 1))
    ensures Simulated(env, fuel, On(b, IfNext(branches, next, els)), b,
                      RunIf(env.oracle, env.handler, fuel, branches, next, els, ContextOf(b), b.sh), k)
    decreases fuel, 0
  {
    hide Above, Height, NodesHeight, BranchesHeight, FrameMachine.Steps, FrameMachine.Fire, Fired,
         FrameMachine.BodyFrames, Evaluator.Run;
    k := 1;
    var f := IfNext(branches, next, els);
    var c, h := On(b, f), |b.frames|;
    NothingYet(env, c, h);
    var result := RunIf(env.oracle, env.handler, fuel, branches, next, els, ContextOf(b), b.sh);
    FirstStep(env, b, f);
    if next < |branches| {
      BranchesHeightAt(branches, TrapHeight(env, b.sh.handling), next);
    }
    FireIfNext(env, branches, next, els, b);
    if fuel > 0 && next < |branches| {
      var g := IfAfter(branches, next, els);
      var b1 := On(b.(cond := b.cond + 1, last := b.sh.status), g);
      var d := On(b1, Eval(branches[next].cond));
      assert Leads(env, c, 1, d, h);
      BodyFramesOn(b.frames, g);
      k := SimNode(env, fuel - 1, branches[next].cond, b1);
      match Spec(env, fuel - 1, branches[next].cond, b1) {
        case None =>
          PartUnfinished(env, fuel - 1, c, 1, d, b1, h, k);
        case Some((signal, s)) =>
          PartDone(env, fuel - 1, c, 1, d, b1, signal, s, k, h);
          var b2 := Returned(b, signal, s);
          FireIfAfter(env, branches, next, els, b, signal, s);
          NextStep(env, c, 1 + k, b2.(cond := b.cond + 1), g, h);
          if !signal.Normal? {
            k := 2 + k;
          } else if s.status == 0 {
            var k1 := SimNode(env, fuel - 1, branches[next].body, b2);
            Prepend(env, fuel - 1, c, 2 + k, On(b2, Eval(branches[next].body)), b, result, k1);
            k := 2 + k + k1;
          } else {
            var k1 := SimIf(env, fuel - 1, branches, next + 1, els, b2);
            Prepend(env, fuel - 1, c, 2 + k, On(b2, IfNext(branches, next + 1, els)), b, result, k1);
            k := 2 + k + k1;
          }
      }
    } else if fuel > 0 && els.Some? {
      var b1 := Returned(b, Normal, b.sh);
      k := SimNode(env, fuel - 1, els.value, b1);
      Prepend(env, fuel - 1, c, 1, On(b1, Eval(els.value)), b, result, k);
      k := 1 + k;
    }
  }

  /** After a loop that ended on `FinishLoop`, that frame gives the loop depth back. */
  lemma {:induction false} LoopEnds(env: Env, fuel: nat, c: Config, m: nat, d: Config, b: Config, b1: Config,
                                    result: Result, k: nat) returns (n: nat)
    requires b1 == On(b.(loops := b.loops + 1, sh := b1.sh, last := b1.last), FinishLoop)
    requires b1.sh.handling == b.sh.handling
    requires Leads(env, c, m, d, |b.frames|)
    requires Simulated(env, fuel, d, b1, result, k)
    ensures Simulated(env, fuel + 1, c, b, result, n)
  {
    hide Above, Height, NodesHeight, BranchesHeight, FrameMachine.Steps, FrameMachine.Fire, Fired;
    match result {
      case None =>
        PartUnfinished(env, fuel, c, m, d, b1, |b.frames|, k);
        n := 0;
      case Some((signal, sh)) =>
        PartDone(env, fuel, c, m, d, b1, signal, sh, k, |b.frames|);
        FireFinishLoop(env, b, signal, sh);
        NextStep(env, c, m + k, Returned(b.(loops := b.loops + 1), signal, sh), FinishLoop, |b.frames|);
        n := m + k + 1;
    }
  }

  lemma {:induction false} SimWhileNode(env: Env, fuel: nat, node: Node, cond: Node, body: Node, until: bool, b: Config)
    returns (k: nat)
    requires fuel > 0 && node == While(cond, body, until) && NodeFits(env, node, b)
    ensures Simulated(env, fuel, On(b, Eval(node)), b, Spec(env, fuel, node, b), k)
    decreases fuel, 0
  {
    hide Above, Height, NodesHeight, BranchesHeight, FrameMachine.Steps, FrameMachine.Fire, Fired;
    HeightParts(node, TrapHeight(env, b.sh.handling));
    var b1 := On(b.(loops := b.loops + 1, sh := b.sh.(status := 0), last := 0), FinishLoop);
    FirstStep(env, b, Eval(node));
    FireEvalLoop(env, node, b);
    BodyFramesOn(b.frames, FinishLoop);
    var k1 := SimWhile(env, fuel - 1, cond, body, until, 0, b1);
    k := LoopEnds(env, fuel - 1, On(b, Eval(node)), 1, On(b1, WhileCheck(cond, body, until, 0)), b, b1,
                  Spec(env, fuel, node, b), k1);
  }

  lemma {:induction false} SimWhile(env: Env, fuel: nat, cond: Node, body: Node, until: bool, bodyStatus: int,
                                    b: Config) returns (k: nat)
    requires Fits(b, 1 + Max(Height(cond, TrapHeight(env, b.sh.handling)),
                             Height(body, TrapHeight(env, b.sh.handling))))
    ensures Simulated(env, fuel, On(b, WhileCheck(cond, body, until, bodyStatus)), b,
                      RunWhile(env.oracle, env.handler, fuel, cond, body, until, bodyStatus, ContextOf(b), b.sh), k)
    decreases fuel, 0
  {
    hide Above, Height, NodesHeight, BranchesHeight, FrameMachine.Steps, FrameMachine.Fire, Fired,
         FrameMachine.BodyFrames, Evaluator.Run;
    k := 1;
    if fuel == 0 {
      NothingYet(env, On(b, WhileCheck(cond, body, until, bodyStatus)), |b.frames|);
      return;
    }
    var f := WhileCheck(cond, body, until, bodyStatus);
    var c, h := On(b, f), |b.frames|;
    var g := WhileAfterCondition(cond, body, until, bodyStatus);
    var b1 := On(b.(cond := b.cond + 1, last := b.sh.status), g);
    FirstStep(env, b, f);
    FireWhileCheck(env, cond, body, until, bodyStatus, b);
    assert Leads(env, c, 1, On(b1, Eval(cond)), h);
    BodyFramesOn(b.frames, g);
    k := SimNode(env, fuel - 1, cond, b1);
    match Spec(env, fuel - 1, cond, b1) {
      case None =>
        PartUnfinished(env, fuel - 1, c, 1, On(b1, Eval(cond)), b1, h, k);
      case Some((signal, s)) =>
        PartDone(env, fuel - 1, c, 1, On(b1, Eval(cond)), b1, signal, s, k, h);
        var b2 := Returned(b, signal, s);
        FireWhileAfterCondition(env, cond, body, until, bodyStatus, b, signal, s);
        NextStep(env, c, 1 + k, b2.(cond := b.cond + 1), g, h);
        k := 2 + k;
        if (s.status == 0) != until && signal.Normal? {
          var again := WhileAfterBody(cond, body, until);
          var k1 := SimNode(env, fuel - 1, body, On(b2, again));
          BodyFramesOn(b.frames, again);
          match Spec(env, fuel - 1, body, On(b2, again)) {
            case None =>
              PartUnfinished(env, fuel - 1, c, k, On(On(b2, again), Eval(body)), On(b2, again), h, k1);
            case Some((ended, t)) =>
              PartDone(env, fuel - 1, c, k, On(On(b2, again), Eval(body)), On(b2, again), ended, t, k1, h);
              k := k + k1;
              k := SimWhileRound(env, fuel, c, k, cond, body, until, bodyStatus, b, ended, t);
          }
        }
    }
  }

  /** A `while` round whose body ended: leave, or check the condition again. */
  lemma {:induction false} SimWhileRound(env: Env, fuel: nat, c: Config, m: nat, cond: Node, body: Node, until: bool,
                                         bodyStatus: int,
                      b: Config, ended: Signal, t: Shell) returns (k: nat)
    requires fuel > 0 && t.handling == b.sh.handling
    requires Fits(b, 1 + Max(Height(cond, TrapHeight(env, b.sh.handling)),
                             Height(body, TrapHeight(env, b.sh.handling))))
    requires Leads(env, c, m, On(Returned(b, ended, t), WhileAfterBody(cond, body, until)), |b.frames|)
    ensures Simulated(env, fuel, c, b,
                      if GoesRound(ended) then RunWhile(env.oracle, env.handler, fuel - 1, cond, body, until, t.status,
                                                        ContextOf(b), t)
                      else Some((Consume(ended), t)), k)
    decreases fuel, 0, 0
  {
    hide Above, Height, NodesHeight, BranchesHeight, FrameMachine.Steps, FrameMachine.Fire, Fired;
    FireAfterBody(env, WhileAfterBody(cond, body, until), b, ended, t);
    NextStep(env, c, m, Returned(b, ended, t), WhileAfterBody(cond, body, until), |b.frames|);
    k := m + 1;
    if GoesRound(ended) {
      var b2 := Returned(b, Normal, t);
      var k1 := SimWhile(env, fuel - 1, cond, body, until, t.status, b2);
      Prepend(env, fuel - 1, c, m + 1, On(b2, WhileCheck(cond, body, until, t.status)), b,
              RunWhile(env.oracle, env.handler, fuel - 1, cond, body, until, t.status, ContextOf(b), t), k1);
      k := m + 1 + k1;
    }
  }

  lemma {:induction false} SimForNode(env: Env, fuel: nat, node: Node, name: string, words: nat, body: Node, b: Config)
    returns (k: nat)
    requires fuel > 0 && node == For(name, words, body) && NodeFits(env, node, b)
    ensures Simulated(env, fuel, On(b, Eval(node)), b, Spec(env, fuel, node, b), k)
    decreases fuel, 0
  {
    hide Above, Height, NodesHeight, BranchesHeight, FrameMachine.Steps, FrameMachine.Fire, Fired;
    HeightParts(node, TrapHeight(env, b.sh.handling));
    var c, h := On(b, Eval(node)), |b.frames|;
    var prepare := PrepareFor(name, words, body);
    var b1 := On(b.(loops := b.loops + 1, last := b.sh.status), FinishLoop);
    FirstStep(env, b, Eval(node));
    FireEvalLoop(env, node, b);
    assert Leads(env, c, 1, On(b1, prepare), h);
    FirePrepareFor(env, name, words, body, b1);
    NextStep(env, c, 1, b1, prepare, h);
    var (s, outcome) := Expand(env.oracle, words, b.sh);
    match outcome {
      case Failed(status, abortShell) =>
        var signal := if abortShell then Exit(status) else Normal;
        FireFinishLoop(env, b, signal, s.(status := status));
        NextStep(env, c, 2, Returned(b.(loops := b.loops + 1), signal, s.(status := status)), FinishLoop, h);
        k := 3;
      case Items(items) =>
        var b2 := b1.(sh := s.(status := 0), last := 0);
        BodyFramesOn(b.frames, FinishLoop);
        var k1 := SimFor(env, fuel - 1, name, items, body, 0, 0, b2);
        k := LoopEnds(env, fuel - 1, c, 2, On(b2, ForNext(name, items, body, 0, 0)), b, b2, Spec(env, fuel, node, b),
                      k1);
    }
  }

  lemma {:induction false} SimFor(env: Env, fuel: nat, name: string, items: seq<string>, body: Node, next: nat,
                                  bodyStatus: int, b: Config) returns (k: nat)
    requires Fits(b, 1 + Height(body, TrapHeight(env, b.sh.handling)))
    ensures Simulated(env, fuel, On(b, ForNext(name, items, body, next, bodyStatus)), b,
                      RunFor(env.oracle, env.handler, fuel, name, items, body, next, bodyStatus, ContextOf(b), b.sh), k)
    decreases fuel, 0
  {
    hide Above, Height, NodesHeight, BranchesHeight, FrameMachine.Steps, FrameMachine.Fire, Fired,
         FrameMachine.BodyFrames, Evaluator.Run;
    k := 1;
    var f := ForNext(name, items, body, next, bodyStatus);
    var c, h := On(b, f), |b.frames|;
    NothingYet(env, c, h);
    FirstStep(env, b, f);
    FireForNext(env, name, items, body, next, bodyStatus, b);
    if fuel > 0 && next < |items| {
      var again := ForAfterBody(name, items, body, next + 1);
      var b1 := On(Returned(b, Normal, Bind(name, items[next], b.sh)), again);
      assert Leads(env, c, 1, On(b1, Eval(body)), h);
      BodyFramesOn(b.frames, again);
      k := SimNode(env, fuel - 1, body, b1);
      match Spec(env, fuel - 1, body, b1) {
        case None =>
          PartUnfinished(env, fuel - 1, c, 1, On(b1, Eval(body)), b1, h, k);
        case Some((ended, t)) =>
          PartDone(env, fuel - 1, c, 1, On(b1, Eval(body)), b1, ended, t, k, h);
          FireAfterBody(env, again, b, ended, t);
          NextStep(env, c, 1 + k, Returned(b, ended, t), again, h);
          k := 2 + k;
          if GoesRound(ended) {
            var b2 := Returned(b, Normal, t);
            var k1 := SimFor(env, fuel - 1, name, items, body, next + 1, t.status, b2);
            Prepend(env, fuel - 1, c, k, On(b2, ForNext(name, items, body, next + 1, t.status)), b,
                    RunFor(env.oracle, env.handler, fuel, name, items, body, next, bodyStatus, ContextOf(b), b.sh), k1);
            k := k + k1;
          }
      }
    }
  }

  // ----- The theorems -----

  lemma SameSignal(a: Signal, b: Signal)
    requires FlagsOf(a) == FlagsOf(b)
    ensures a == b
  {
  }

  /** The first return to the base stack is unique. */
  lemma LeadsOnce(env: Env, c: Config, k1: nat, d1: Config, k2: nat, d2: Config, h: nat)
    requires Leads(env, c, k1, d1, h) && |d1.frames| <= h
    requires Leads(env, c, k2, d2, h) && |d2.frames| <= h
    ensures d1 == d2
  {
    hide FrameMachine.Step;
    assert k1 == k2;
  }

  /** Evaluating `node` on the stack of `b`, the machine comes back to that stack with a given
      outcome exactly when the recursive evaluator finishes with that outcome. */
  lemma MachineMatchesEvaluator(env: Env, node: Node, b: Config, signal: Signal, sh: Shell)
    requires NodeFits(env, node, b)
    ensures (exists fuel: nat :: Spec(env, fuel, node, b) == Some((signal, sh))) <==>
            (exists k: nat :: Leads(env, On(b, Eval(node)), k, Returned(b, signal, sh), |b.frames|))
  {
    hide FrameMachine.Step, Evaluator.Run, Height, Fired;
    var c, h := On(b, Eval(node)), |b.frames|;
    if fuel: nat :| Spec(env, fuel, node, b) == Some((signal, sh)) {
      var k := SimNode(env, fuel, node, b);
      assert Leads(env, c, k, Returned(b, signal, sh), h);
    }
    if k: nat :| Leads(env, c, k, Returned(b, signal, sh), h) {
      var k1 := SimNode(env, k + 1, node, b);
      match Spec(env, k + 1, node, b) {
        case None =>
          assert false;
        case Some((signal1, sh1)) =>
          LeadsOnce(env, c, k, Returned(b, signal, sh), k1, Returned(b, signal1, sh1), h);
          SameSignal(signal, signal1);
      }
    }
  }

  /** The evaluator runs for ever exactly when the machine never comes back. */
  lemma MachineDivergesWithEvaluator(env: Env, node: Node, b: Config)
    requires NodeFits(env, node, b)
    ensures (forall fuel: nat :: Spec(env, fuel, node, b).None?) <==>
            (forall k: nat :: |Steps(env, k, On(b, Eval(node))).frames| > |b.frames|)
  {
    hide FrameMachine.Step, Evaluator.Run, Height, Fired;
    var c, h := On(b, Eval(node)), |b.frames|;
    if forall fuel: nat :: Spec(env, fuel, node, b).None? {
      forall k: nat ensures |Steps(env, k, c).frames| > h {
        var _ := SimNode(env, k + 1, node, b);
        assert Spec(env, k + 1, node, b).None?;
      }
    }
    if fuel: nat :| Spec(env, fuel, node, b).Some? {
      var k := SimNode(env, fuel, node, b);
      assert |Steps(env, k, c).frames| == h;
    }
  }

  /** Fuel only decides whether the evaluator finishes, never what it answers. */
  lemma EvaluatorDeterministic(env: Env, node: Node, b: Config, fuel1: nat, fuel2: nat)
    requires NodeFits(env, node, b)
    requires Spec(env, fuel1, node, b).Some? && Spec(env, fuel2, node, b).Some?
    ensures Spec(env, fuel1, node, b) == Spec(env, fuel2, node, b)
  {
    hide FrameMachine.Step, Evaluator.Run, Height, Fired;
    var c, h := On(b, Eval(node)), |b.frames|;
    var (signal1, sh1) := Spec(env, fuel1, node, b).value;
    var (signal2, sh2) := Spec(env, fuel2, node, b).value;
    var k1 := SimNode(env, fuel1, node, b);
    var k2 := SimNode(env, fuel2, node, b);
    LeadsOnce(env, c, k1, Returned(b, signal1, sh1), k2, Returned(b, signal2, sh2), h);
    SameSignal(signal1, signal2);
  }
}
