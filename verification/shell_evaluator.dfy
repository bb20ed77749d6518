// A plain recursive evaluator for the same syntax: no stack, no counters to restore and no flags,
// only nesting depths passed down and a structured signal passed up.

module Evaluator {
  import opened Basics
  import opened ShellSyntax

  /** Where a node is evaluated: enclosing conditions, enclosing loops, enclosing loop bodies. */
  datatype Context = Context(cond: nat, loops: nat, bodies: nat)

  type Result = Option<(Signal, Shell)>

  predicate Exits(cond: nat, sh: Shell) {
    sh.status != 0 && sh.errexit && cond == 0 && !sh.exempt
  }

  /** The signal a loop passes on once its body has ended with `signal`. */
  function Consume(signal: Signal): Signal {
    match signal
    case Break(n) => if n > 1 then Break(n - 1) else Normal
    case Continue(n) => if n > 1 then Continue(n - 1) else Normal
    case _ => signal
  }

  /** Whether a loop goes round again after its body ended with `signal`. */
  predicate GoesRound(signal: Signal) {
    signal.Normal? || (signal.Continue? && signal.count <= 1)
  }

  /** Evaluate `node`. `None` means that `fuel` did not suffice. */
  function Run(o: Oracle, handler: Option<Node>, fuel: nat, node: Node, ctx: Context, sh: Shell): Result
    decreases fuel
  {
    if fuel == 0 then None
    else match node
      case Empty => Some((Normal, sh.(status := 0)))
      case Command(cmd) => RunCommand(o, handler, fuel, cmd, ctx, sh.(exempt := false))
      case And(lhs, rhs) => RunAndOr(o, handler, fuel, lhs, rhs, true, ctx, sh)
      case Or(lhs, rhs) => RunAndOr(o, handler, fuel, lhs, rhs, false, ctx, sh)
      case Not(inner) =>
        (match Run(o, handler, fuel - 1, inner, ctx.(cond := ctx.cond + 1), sh)
         case None => None
         case Some((signal, s)) => Some((signal, s.(status := if s.status == 0 then 1 else 0, exempt := true))))
      case Seq(nodes) => RunSeq(o, handler, fuel - 1, nodes, 0, ctx, sh.(status := 0))
      case Group(inner) => Run(o, handler, fuel - 1, inner, ctx, sh)
      case If(_, _, _, els) => RunIf(o, handler, fuel - 1, Branches(node), 0, els, ctx, sh)
      case While(cond, body, until) =>
        RunWhile(o, handler, fuel - 1, cond, body, until, 0, ctx.(loops := ctx.loops + 1), sh.(status := 0))
      case For(name, words, body) =>
        var (s, outcome) := Expand(o, words, sh);
        (match outcome
         case Failed(status, abortShell) =>
           Some((if abortShell then Exit(status) else Normal, s.(status := status)))
         case Items(items) =>
           RunFor(o, handler, fuel - 1, name, items, body, 0, 0, ctx.(loops := ctx.loops + 1), s.(status := 0)))
  }

  /** A simple command, and the ERR trap if the command failed where failures count. */
  function RunCommand(o: Oracle, handler: Option<Node>, fuel: nat, cmd: nat, ctx: Context, sh: Shell): Result
    requires fuel > 0
    decreases fuel, 0
  {
    var (s, signal) := Perform(o, cmd, sh.status, ctx.cond, ctx.loops, ctx.bodies, sh);
    var recorded := s.(pipeStatus := s.status);
    if signal.Normal? && s.status != 0 && ctx.cond == 0 && !s.exempt && !s.handling && handler.Some? then
      match Run(o, handler, fuel - 1, handler.value, ctx, recorded.(handling := true))
      case None => None
      case Some((trapped, t)) =>
        Some((trapped, t.(handling := false, status := if trapped.Exit? then trapped.code else s.status,
                          exempt := s.exempt)))
    else Some((signal, recorded))
  }

  function RunAndOr(o: Oracle, handler: Option<Node>, fuel: nat, lhs: Node, rhs: Node, onSuccess: bool,
                    ctx: Context, sh: Shell): Result
    requires fuel > 0
    decreases fuel, 0
  {
    match Run(o, handler, fuel - 1, lhs, ctx.(cond := ctx.cond + 1), sh)
    case None => None
    case Some((signal, s)) =>
      if !signal.Normal? then Some((signal, s))
      else if (s.status == 0) == onSuccess then Run(o, handler, fuel - 1, rhs, ctx, s.(exempt := false))
      else Some((Normal, s.(exempt := true)))
  }

  /** The elements of a list from `next` on; `set -e` is tested after each of them. */
  function RunSeq(o: Oracle, handler: Option<Node>, fuel: nat, nodes: seq<Node>, next: nat, ctx: Context,
                  sh: Shell): Result
    decreases fuel, 0
  {
    if fuel == 0 then None
    else if next > 0 && Exits(ctx.cond, sh) then Some((Exit(sh.status), sh))
    else if next >= |nodes| then Some((Normal, sh))
    else match Run(o, handler, fuel - 1, nodes[next], ctx, sh)
      case None => None
      case Some((signal, s)) =>
        if signal.Normal? then RunSeq(o, handler, fuel - 1, nodes, next + 1, ctx, s) else Some((signal, s))
  }

  function RunIf(o: Oracle, handler: Option<Node>, fuel: nat, branches: seq<Branch>, next: nat, els: Option<Node>,
                 ctx: Context, sh: Shell): Result
    decreases fuel, 0
  {
    if fuel == 0 then None
    else if next >= |branches| then
      if els.Some? then Run(o, handler, fuel - 1, els.value, ctx, sh) else Some((Normal, sh.(status := 0)))
    else match Run(o, handler, fuel - 1, branches[next].cond, ctx.(cond := ctx.cond + 1), sh)
      case None => None
      case Some((signal, s)) =>
        if !signal.Normal? then Some((signal, s))
        else if s.status == 0 then Run(o, handler, fuel - 1, branches[next].body, ctx, s)
        else RunIf(o, handler, fuel - 1, branches, next + 1, els, ctx, s)
  }

  /** Rounds of a `while` or `until`. A signal raised by the condition list leaves the loop with
      its count unchanged: only a body's signal is consumed here. */
  function RunWhile(o: Oracle, handler: Option<Node>, fuel: nat, cond: Node, body: Node, until: bool, bodyStatus: int,
                    ctx: Context, sh: Shell): Result
    decreases fuel, 0
  {
    if fuel == 0 then None
    else match Run(o, handler, fuel - 1, cond, ctx.(cond := ctx.cond + 1), sh)
      case None => None
      case Some((signal, s)) =>
        if (s.status == 0) == until || !signal.Normal? then Some((signal, s.(status := bodyStatus)))
        else match Run(o, handler, fuel - 1, body, ctx.(bodies := ctx.bodies + 1), s)
          case None => None
          case Some((ended, t)) =>
            if GoesRound(ended) then RunWhile(o, handler, fuel - 1, cond, body, until, t.status, ctx, t)
            else Some((Consume(ended), t))
  }

  function RunFor(o: Oracle, handler: Option<Node>, fuel: nat, name: string, items: seq<string>, body: Node, next: nat,
                  bodyStatus: int, ctx: Context, sh: Shell): Result
    decreases fuel, 0
  {
    if fuel == 0 then None
    else if next >= |items| then Some((Normal, sh.(status := bodyStatus)))
    else match Run(o, handler, fuel - 1, body, ctx.(bodies := ctx.bodies + 1), Bind(name, items[next], sh))
      case None => None
      case Some((ended, t)) =>
        if GoesRound(ended) then RunFor(o, handler, fuel - 1, name, items, body, next + 1, t.status, ctx, t)
        else Some((Consume(ended), t))
  }
}
