// How a break, continue, return or exit leaves a program: it is exactly the one the last event asked
// for, less the loops it has left.
//
// POSIX.1-2017 (XCU section 2.14) says that a count larger than the number of enclosing loops
// leaves only the outermost one. The interpreter does not clamp the count, and a loop consumes
// only what its body raised, so a count larger than the number of enclosing loop *bodies* stays
// pending after the outermost loop has ended.

module LoopSignals {
  import opened Basics
  import opened ShellSyntax
  import opened Evaluator
  import FrameMachine
  import FrameRefinement

  /** The transfer of control an event asks for, seen from `bodies` loop bodies down: what is left of the
      levels of a `break` or `continue`, or a `return` or exit with its code. */
  function Left(event: Event, bodies: nat): Signal {
    match event
    case Ran(request, at, reply) =>
      (match Outcome(reply.action, request.loops).1
       case Break(n) => if n + bodies > at then Break(n + bodies - at) else Normal
       case Continue(n) => if n + bodies > at then Continue(n + bodies - at) else Normal
       case other => other)
    case Expanded(_, outcome) => if outcome.Failed? && outcome.abortShell then Exit(outcome.status) else Normal
    case Bound(_, _) => Normal
  }

  /** A signal is the one asked for; where none is, `set -e` may still exit. */
  predicate Answers(signal: Signal, asked: Signal, errexit: bool) {
    if asked.Normal? then signal.Normal? || (signal.Exit? && signal.code != 0 && errexit) else signal == asked
  }

  /** The trace grew from `before` to `after`, and `signal` answers the last new event. */
  ghost predicate Explained(before: seq<Event>, after: seq<Event>, bodies: nat, signal: Signal, errexit: bool) {
    && before <= after
    && (forall i :: |before| <= i < |after| && after[i].Ran? ==> after[i].bodies >= bodies)
    && Answers(signal, if |after| == |before| then Normal else Left(after[|after| - 1], bodies), errexit)
  }

  ghost predicate ResultExplained(ctx: Context, sh: Shell, result: Result) {
    result.Some? ==> Explained(sh.trace, result.value.1.trace, ctx.bodies, result.value.0, result.value.1.errexit)
  }

  /** Two consecutive parts of a run, the first of which ended normally. */
  lemma ExplainedThen(a: seq<Event>, b: Shell, bodies: nat, r: Result)
    requires Explained(a, b.trace, bodies, Normal, b.errexit)
    requires r.Some? ==> Explained(b.trace, r.value.1.trace, bodies, r.value.0, r.value.1.errexit)
    ensures r.Some? ==> Explained(a, r.value.1.trace, bodies, r.value.0, r.value.1.errexit)
  {
  }

  /** A loop body's signal, seen from outside the loop. */
  lemma ExplainedOutside(a: seq<Event>, b: seq<Event>, bodies: nat, ended: Signal, errexit: bool)
    requires Explained(a, b, bodies + 1, ended, errexit)
    ensures Explained(a, b, bodies, Consume(ended), errexit)
    ensures GoesRound(ended) ==> Explained(a, b, bodies, Normal, errexit)
  {
  }

  lemma {:induction false} RunExplained(o: Oracle, handler: Option<Node>, fuel: nat, node: Node, ctx: Context,
                                        sh: Shell)
    ensures ResultExplained(ctx, sh, Run(o, handler, fuel, node, ctx, sh))
    decreases fuel
  {
    hide Explained, Left;
    if fuel == 0 {
      return;
    }
    Unchanged(sh.trace, ctx.bodies, sh.errexit);
    match node {
      case Empty =>
      case Command(cmd) =>
        CommandExplained(o, handler, fuel, cmd, ctx, sh.(exempt := false));
      case And(lhs, rhs) =>
        AndOrExplained(o, handler, fuel, lhs, rhs, true, ctx, sh);
      case Or(lhs, rhs) =>
        AndOrExplained(o, handler, fuel, lhs, rhs, false, ctx, sh);
      case Not(inner) =>
        RunExplained(o, handler, fuel - 1, inner, ctx.(cond := ctx.cond + 1), sh);
      case Seq(nodes) =>
        SeqExplained(o, handler, fuel - 1, nodes, 0, ctx, sh.(status := 0));
      case Group(inner) =>
        RunExplained(o, handler, fuel - 1, inner, ctx, sh);
      case If(_, _, _, els) =>
        IfExplained(o, handler, fuel - 1, Branches(node), 0, els, ctx, sh);
      case While(cond, body, until) =>
        WhileExplained(o, handler, fuel - 1, cond, body, until, 0, ctx.(loops := ctx.loops + 1), sh.(status := 0));
      case For(name, words, body) =>
        var (s, outcome) := Expand(o, words, sh);
        ExpandExplained(sh.trace, words, outcome, ctx.bodies, sh.errexit);
        if outcome.Items? {
          var inner := ctx.(loops := ctx.loops + 1);
          ForExplained(o, handler, fuel - 1, name, outcome.items, body, 0, 0, inner, s.(status := 0));
          var r := RunFor(o, handler, fuel - 1, name, outcome.items, body, 0, 0, inner, s.(status := 0));
          ExplainedThen(sh.trace, s, ctx.bodies, r);
        }
    }
  }

  /** One round of a loop: from `s` the body ended at `t`, and `rest` is the run of the rounds that follow. */
  lemma RoundExplained(a: seq<Event>, s: Shell, t: Shell, bodies: nat, ended: Signal, rest: Result)
    requires Explained(a, s.trace, bodies, Normal, s.errexit)
    requires Explained(s.trace, t.trace, bodies + 1, ended, t.errexit)
    requires rest.Some? ==> Explained(t.trace, rest.value.1.trace, bodies, rest.value.0, rest.value.1.errexit)
    ensures !GoesRound(ended) ==> Explained(a, t.trace, bodies, Consume(ended), t.errexit)
    ensures GoesRound(ended) && rest.Some? ==>
              Explained(a, rest.value.1.trace, bodies, rest.value.0, rest.value.1.errexit)
  {
    hide Explained, Left, Consume, GoesRound;
    ExplainedOutside(s.trace, t.trace, bodies, ended, t.errexit);
    ExplainedThen(a, s, bodies, Some((Consume(ended), t)));
    if GoesRound(ended) {
      ExplainedThen(a, s, bodies, Some((Normal, t)));
      ExplainedThen(a, t, bodies, rest);
    }
  }

  lemma Unchanged(trace: seq<Event>, bodies: nat, errexit: bool)
    ensures Explained(trace, trace, bodies, Normal, errexit)
  {
  }

  lemma BoundExplained(trace: seq<Event>, name: string, item: string, bodies: nat, errexit: bool)
    ensures Explained(trace, trace + [Bound(name, item)], bodies, Normal, errexit)
  {
  }

  lemma ExpandExplained(trace: seq<Event>, words: nat, outcome: WordsReply, bodies: nat, errexit: bool)
    ensures Explained(trace, trace + [Expanded(words, outcome)], bodies,
                      if outcome.Failed? && outcome.abortShell then Exit(outcome.status) else Normal, errexit)
  {
  }

  lemma ErrexitExplained(trace: seq<Event>, bodies: nat, code: int)
    requires code != 0
    ensures Explained(trace, trace, bodies, Exit(code), true)
  {
  }

  lemma PerformExplained(o: Oracle, cmd: nat, last: int, cond: nat, loops: nat, bodies: nat, sh: Shell)
    ensures var (s, signal) := Perform(o, cmd, last, cond, loops, bodies, sh);
            Explained(sh.trace, s.trace, bodies, signal, s.errexit)
  {
  }

  lemma {:induction false} CommandExplained(o: Oracle, handler: Option<Node>, fuel: nat, cmd: nat, ctx: Context,
                                            sh: Shell)
    requires fuel > 0
    ensures ResultExplained(ctx, sh, RunCommand(o, handler, fuel, cmd, ctx, sh))
    decreases fuel, 0
  {
    hide Explained, Left, Run;
    PerformExplained(o, cmd, sh.status, ctx.cond, ctx.loops, ctx.bodies, sh);
    var (s, signal) := Perform(o, cmd, sh.status, ctx.cond, ctx.loops, ctx.bodies, sh);
    if handler.Some? {
      var t := s.(pipeStatus := s.status, handling := true);
      RunExplained(o, handler, fuel - 1, handler.value, ctx, t);
      var r := Run(o, handler, fuel - 1, handler.value, ctx, t);
      if signal.Normal? {
        ExplainedThen(sh.trace, t, ctx.bodies, r);
      }
    }
  }

  lemma {:induction false} AndOrExplained(o: Oracle, handler: Option<Node>, fuel: nat, lhs: Node, rhs: Node,
                                          onSuccess: bool,
                                          ctx: Context, sh: Shell)
    requires fuel > 0
    ensures ResultExplained(ctx, sh, RunAndOr(o, handler, fuel, lhs, rhs, onSuccess, ctx, sh))
    decreases fuel, 0
  {
    hide Explained, Left, Run;
    RunExplained(o, handler, fuel - 1, lhs, ctx.(cond := ctx.cond + 1), sh);
    match Run(o, handler, fuel - 1, lhs, ctx.(cond := ctx.cond + 1), sh)
    case None =>
    case Some((signal, s)) =>
      var s1 := s.(exempt := false);
      RunExplained(o, handler, fuel - 1, rhs, ctx, s1);
      if signal.Normal? {
        ExplainedThen(sh.trace, s1, ctx.bodies, Run(o, handler, fuel - 1, rhs, ctx, s1));
      }
  }

  lemma {:induction false} SeqExplained(o: Oracle, handler: Option<Node>, fuel: nat, nodes: seq<Node>, next: nat,
                                        ctx: Context, sh: Shell)
    ensures ResultExplained(ctx, sh, RunSeq(o, handler, fuel, nodes, next, ctx, sh))
    decreases fuel, 0
  {
    hide Explained, Left, Run;
    Unchanged(sh.trace, ctx.bodies, sh.errexit);
    if Exits(ctx.cond, sh) {
      ErrexitExplained(sh.trace, ctx.bodies, sh.status);
    }
    if fuel > 0 && next < |nodes| {
      RunExplained(o, handler, fuel - 1, nodes[next], ctx, sh);
      match Run(o, handler, fuel - 1, nodes[next], ctx, sh)
      case None =>
      case Some((signal, s)) =>
        SeqExplained(o, handler, fuel - 1, nodes, next + 1, ctx, s);
        if signal.Normal? {
          ExplainedThen(sh.trace, s, ctx.bodies, RunSeq(o, handler, fuel - 1, nodes, next + 1, ctx, s));
        }
    }
  }

  lemma {:induction false} IfExplained(o: Oracle, handler: Option<Node>, fuel: nat, branches: seq<Branch>, next: nat,
                                       els: Option<Node>, ctx: Context, sh: Shell)
    ensures ResultExplained(ctx, sh, RunIf(o, handler, fuel, branches, next, els, ctx, sh))
    decreases fuel, 0
  {
    hide Explained, Left, Run;
    Unchanged(sh.trace, ctx.bodies, sh.errexit);
    if fuel == 0 {
    } else if next >= |branches| {
      if els.Some? {
        RunExplained(o, handler, fuel - 1, els.value, ctx, sh);
      }
    } else {
      RunExplained(o, handler, fuel - 1, branches[next].cond, ctx.(cond := ctx.cond + 1), sh);
      match Run(o, handler, fuel - 1, branches[next].cond, ctx.(cond := ctx.cond + 1), sh)
      case None =>
      case Some((signal, s)) =>
        RunExplained(o, handler, fuel - 1, branches[next].body, ctx, s);
        IfExplained(o, handler, fuel - 1, branches, next + 1, els, ctx, s);
        var r := if s.status == 0 then Run(o, handler, fuel - 1, branches[next].body, ctx, s)
                 else RunIf(o, handler, fuel - 1, branches, next + 1, els, ctx, s);
        if signal.Normal? {
          ExplainedThen(sh.trace, s, ctx.bodies, r);
        }
    }
  }

  lemma {:induction false} WhileExplained(o: Oracle, handler: Option<Node>, fuel: nat, cond: Node, body: Node,
                                          until: bool,
                                          bodyStatus: int, ctx: Context, sh: Shell)
    ensures ResultExplained(ctx, sh, RunWhile(o, handler, fuel, cond, body, until, bodyStatus, ctx, sh))
    decreases fuel, 0
  {
    hide Explained, Left, Run, Consume, GoesRound;
    if fuel == 0 {
      return;
    }
    RunExplained(o, handler, fuel - 1, cond, ctx.(cond := ctx.cond + 1), sh);
    match Run(o, handler, fuel - 1, cond, ctx.(cond := ctx.cond + 1), sh)
    case None =>
    case Some((signal, s)) =>
      if (s.status == 0) != until && signal.Normal? {
        var inside := ctx.(bodies := ctx.bodies + 1);
        RunExplained(o, handler, fuel - 1, body, inside, s);
        match Run(o, handler, fuel - 1, body, inside, s)
        case None =>
        case Some((ended, t)) =>
          WhileExplained(o, handler, fuel - 1, cond, body, until, t.status, ctx, t);
          RoundExplained(sh.trace, s, t, ctx.bodies, ended,
                         RunWhile(o, handler, fuel - 1, cond, body, until, t.status, ctx, t));
      }
  }

  lemma {:induction false} ForExplained(o: Oracle, handler: Option<Node>, fuel: nat, name: string, items: seq<string>,
                                        body: Node,
                                        next: nat, bodyStatus: int, ctx: Context, sh: Shell)
    ensures ResultExplained(ctx, sh, RunFor(o, handler, fuel, name, items, body, next, bodyStatus, ctx, sh))
    decreases fuel, 0
  {
    hide Explained, Left, Run;
    Unchanged(sh.trace, ctx.bodies, sh.errexit);
    if fuel > 0 && next < |items| {
      var inside := ctx.(bodies := ctx.bodies + 1);
      var s := Bind(name, items[next], sh);
      BoundExplained(sh.trace, name, items[next], ctx.bodies, sh.errexit);
      RunExplained(o, handler, fuel - 1, body, inside, s);
      match Run(o, handler, fuel - 1, body, inside, s)
      case None =>
      case Some((ended, t)) =>
        ForExplained(o, handler, fuel - 1, name, items, body, next + 1, t.status, ctx, t);
        RoundExplained(sh.trace, s, t, ctx.bodies, ended,
                       RunFor(o, handler, fuel - 1, name, items, body, next + 1, t.status, ctx, t));
    }
  }

  /** A whole program ends with exactly the transfer of control its last event asked for, a `return` or
      exit with that event's own code whatever stood around it, `!` and the ERR trap included; with none
      asked for, only `set -e` exits. */
  lemma PendingSignalExactly(o: Oracle, handler: Option<Node>, fuel: nat, node: Node, sh: Shell)
    requires sh.trace == [] && Run(o, handler, fuel, node, Context(0, 0, 0), sh).Some?
    ensures var (signal, s) := Run(o, handler, fuel, node, Context(0, 0, 0), sh).value;
            var asked := if s.trace == [] then Normal else Left(s.trace[|s.trace| - 1], 0);
            Answers(signal, asked, s.errexit)
  {
    hide Run;
    RunExplained(o, handler, fuel, node, Context(0, 0, 0), sh);
  }

  /** The same for the machine: its returning and exiting flags at the end carry the last event's code. */
  lemma MachineCarriesCodeExactly(env: FrameMachine.Env, node: Node, b: FrameMachine.Config, k: nat, signal: Signal,
                                  sh: Shell)
    requires b.frames == [] && b.cond == 0 && b.loops == 0 && b.sh.trace == [] && FrameRefinement.NodeFits(env, node, b)
    requires FrameRefinement.Leads(env, FrameRefinement.On(b, FrameMachine.Eval(node)), k,
                                   FrameRefinement.Returned(b, signal, sh), 0)
    ensures var d := FrameMachine.Steps(env, k, FrameRefinement.On(b, FrameMachine.Eval(node)));
            var asked := if sh.trace == [] then Normal else Left(sh.trace[|sh.trace| - 1], 0);
            && (forall code :: d.flags.returning == Some(code) <==> asked == Return(code))
            && (forall code :: asked == Exit(code) ==> d.flags.exiting == Some(code))
  {
    hide Run, FrameMachine.Steps, FrameRefinement.Height, FrameRefinement.Above, Left;
    FrameRefinement.MachineMatchesEvaluator(env, node, b, signal, sh);
    var fuel: nat :| FrameRefinement.Spec(env, fuel, node, b) == Some((signal, sh));
    PendingSignalExactly(env.oracle, env.handler, fuel, node, b.sh);
  }

  /** The command that ran last asked to leave more levels than the loop bodies it ran in. */
  ghost predicate Overshoots(event: Event) {
    && event.Ran? && event.request.loops > 0
    && (event.reply.action.BreakLoops? || event.reply.action.ContinueLoops?)
    && event.reply.action.count > event.bodies
  }

  /** A whole program leaves a `break` or `continue` pending if and only if the last event of its
      run is a command whose count exceeds the number of loop bodies it ran in. */
  lemma PendingLoopSignalExactly(o: Oracle, handler: Option<Node>, fuel: nat, node: Node, sh: Shell)
    requires sh.trace == [] && Run(o, handler, fuel, node, Context(0, 0, 0), sh).Some?
    ensures var (signal, s) := Run(o, handler, fuel, node, Context(0, 0, 0), sh).value;
            signal.Break? || signal.Continue? <==> s.trace != [] && Overshoots(s.trace[|s.trace| - 1])
  {
    hide Run;
    RunExplained(o, handler, fuel, node, Context(0, 0, 0), sh);
  }

  /** The same for the machine: run from an empty stack outside every loop, it ends with its break
      or continue counter above zero in exactly those runs. */
  lemma MachineLeavesLoopSignalExactly(env: FrameMachine.Env, node: Node, b: FrameMachine.Config, k: nat,
                                       signal: Signal, sh: Shell)
    requires b.frames == [] && b.cond == 0 && b.loops == 0 && b.sh.trace == [] && FrameRefinement.NodeFits(env, node, b)
    requires FrameRefinement.Leads(env, FrameRefinement.On(b, FrameMachine.Eval(node)), k,
                                   FrameRefinement.Returned(b, signal, sh), 0)
    ensures var d := FrameMachine.Steps(env, k, FrameRefinement.On(b, FrameMachine.Eval(node)));
            d.flags.brk > 0 || d.flags.cont > 0 <==> sh.trace != [] && Overshoots(sh.trace[|sh.trace| - 1])
  {
    hide Run, FrameMachine.Steps, FrameRefinement.Height, FrameRefinement.Above;
    FrameRefinement.MachineMatchesEvaluator(env, node, b, signal, sh);
    var fuel: nat :| FrameRefinement.Spec(env, fuel, node, b) == Some((signal, sh));
    PendingLoopSignalExactly(env.oracle, env.handler, fuel, node, b.sh);
  }

  /** The promise that a `break` leaves at most the enclosing loops fails: after one loop whose body
      runs `break 2`, the break is still pending and the command after the loop never runs. */
  lemma BreakTwoSkipsWhatFollows(sh: Shell)
    requires sh.trace == []
    ensures var o := Oracle((h, r) => Reply(BreakLoops(2), false), (h, w) => Items(["x"]));
            var program := Seq([For("i", 0, Command(0)), Command(1)]);
            var r := Run(o, None, 10, program, Context(0, 0, 0), sh);
            r.Some? && r.value.0 == Break(1) && forall i :: 0 <= i < |r.value.1.trace| ==>
              r.value.1.trace[i].Ran? ==> r.value.1.trace[i].request.cmd == 0
  {
    var o := Oracle((h, r) => Reply(BreakLoops(2), false), (h, w) => Items(["x"]));
    var loop := For("i", 0, Command(0));
    var program := Seq([loop, Command(1)]);
    var ctx := Context(0, 1, 0);
    var s0 := sh.(status := 0);
    var (s1, outcome) := Expand(o, 0, s0);
    var s2 := s1.(status := 0);
    var s3 := Bind("i", "x", s2).(exempt := false);
    var (s4, signal) := Perform(o, 0, s3.status, 0, 1, 1, s3);
    assert signal == Break(2);
    var s5 := s4.(pipeStatus := s4.status);
    assert RunCommand(o, None, 6, 0, Context(0, 1, 1), s3) == Some((Break(2), s5));
    assert Run(o, None, 6, Command(0), Context(0, 1, 1), Bind("i", "x", s2)) == Some((Break(2), s5));
    assert RunFor(o, None, 7, "i", ["x"], Command(0), 0, 0, ctx, s2) == Some((Break(1), s5));
    assert Run(o, None, 8, loop, Context(0, 0, 0), s0) == Some((Break(1), s5));
    assert RunSeq(o, None, 9, [loop, Command(1)], 0, Context(0, 0, 0), s0) == Some((Break(1), s5));
  }
}
