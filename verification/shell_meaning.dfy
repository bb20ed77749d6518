// What every construct of the shell does, stated once without fuel, stack or branch lists: a node ends
// with a signal and a state exactly when its parts do so in the order the language prescribes.

module ShellMeaning {
  import opened Basics
  import opened ShellSyntax
  import opened Evaluator
  import M = FrameMachine
  import R = FrameRefinement

  /** With enough fuel the evaluator ends `node` with `signal` and `s`. */
  ghost predicate Ends(o: Oracle, h: Option<Node>, node: Node, ctx: Context, sh: Shell, signal: Signal, s: Shell) {
    exists fuel: nat :: Run(o, h, fuel, node, ctx, sh) == Some((signal, s))
  }

  // ----- Fuel -----

  lemma {:induction false} MoreFuel(o: Oracle, h: Option<Node>, fuel: nat, more: nat, node: Node, ctx: Context,
                                    sh: Shell)
    requires fuel <= more && Run(o, h, fuel, node, ctx, sh).Some?
    ensures Run(o, h, more, node, ctx, sh) == Run(o, h, fuel, node, ctx, sh)
    decreases fuel
  {
    match node
    case Empty =>
    case Command(cmd) => MoreForCommand(o, h, fuel, more, cmd, ctx, sh.(exempt := false));
    case And(lhs, rhs) => MoreForAndOr(o, h, fuel, more, lhs, rhs, true, ctx, sh);
    case Or(lhs, rhs) => MoreForAndOr(o, h, fuel, more, lhs, rhs, false, ctx, sh);
    case Not(inner) => MoreFuel(o, h, fuel - 1, more - 1, inner, ctx.(cond := ctx.cond + 1), sh);
    case Seq(nodes) => MoreForSeq(o, h, fuel - 1, more - 1, nodes, 0, ctx, sh.(status := 0));
    case Group(inner) => MoreFuel(o, h, fuel - 1, more - 1, inner, ctx, sh);
    case If(_, _, _, els) => MoreForIf(o, h, fuel - 1, more - 1, Branches(node), 0, els, ctx, sh);
    case While(cond, body, until) =>
      MoreForWhile(o, h, fuel - 1, more - 1, cond, body, until, 0, ctx.(loops := ctx.loops + 1), sh.(status := 0));
    case For(name, words, body) =>
      var (s, outcome) := Expand(o, words, sh);
      if outcome.Items? {
        MoreForFor(o, h, fuel - 1, more - 1, name, outcome.items, body, 0, 0, ctx.(loops := ctx.loops + 1),
                   s.(status := 0));
      }
  }

  lemma {:induction false} MoreForCommand(o: Oracle, h: Option<Node>, fuel: nat, more: nat, cmd: nat, ctx: Context,
                                          sh: Shell)
    requires 0 < fuel <= more && RunCommand(o, h, fuel, cmd, ctx, sh).Some?
    ensures RunCommand(o, h, more, cmd, ctx, sh) == RunCommand(o, h, fuel, cmd, ctx, sh)
    decreases fuel, 0
  {
    hide Run;
    var (s, signal) := Perform(o, cmd, sh.status, ctx.cond, ctx.loops, ctx.bodies, sh);
    if signal.Normal? && s.status != 0 && ctx.cond == 0 && !s.exempt && !s.handling && h.Some? {
      MoreFuel(o, h, fuel - 1, more - 1, h.value, ctx, s.(pipeStatus := s.status, handling := true));
    }
  }

  lemma {:induction false} MoreForAndOr(o: Oracle, h: Option<Node>, fuel: nat, more: nat, lhs: Node, rhs: Node,
                                        onSuccess: bool, ctx: Context, sh: Shell)
    requires 0 < fuel <= more && RunAndOr(o, h, fuel, lhs, rhs, onSuccess, ctx, sh).Some?
    ensures RunAndOr(o, h, more, lhs, rhs, onSuccess, ctx, sh) == RunAndOr(o, h, fuel, lhs, rhs, onSuccess, ctx, sh)
    decreases fuel, 0
  {
    hide Run, RunAndOr;
    AndOrUnfolds(o, h, fuel, lhs, rhs, onSuccess, ctx, sh);
    AndOrUnfolds(o, h, more, lhs, rhs, onSuccess, ctx, sh);
    var tested := ctx.(cond := ctx.cond + 1);
    MoreFuel(o, h, fuel - 1, more - 1, lhs, tested, sh);
    var (signal, s) := Run(o, h, fuel - 1, lhs, tested, sh).value;
    if signal.Normal? && (s.status == 0) == onSuccess {
      MoreFuel(o, h, fuel - 1, more - 1, rhs, ctx, s.(exempt := false));
    }
  }

  lemma AndOrUnfolds(o: Oracle, h: Option<Node>, fuel: nat, lhs: Node, rhs: Node, onSuccess: bool, ctx: Context,
                     sh: Shell)
    requires fuel > 0
    ensures RunAndOr(o, h, fuel, lhs, rhs, onSuccess, ctx, sh) ==
            AfterLeft(o, h, fuel - 1, rhs, onSuccess, ctx, Run(o, h, fuel - 1, lhs, ctx.(cond := ctx.cond + 1), sh))
  {
    hide Run;
  }

  /** The rest of an and-list or or-list whose left part has run. */
  function AfterLeft(o: Oracle, h: Option<Node>, fuel: nat, rhs: Node, onSuccess: bool, ctx: Context,
                     left: Result): Result {
    if left.None? || !left.value.0.Normal? then left
    else if (left.value.1.status == 0) == onSuccess then Run(o, h, fuel, rhs, ctx, left.value.1.(exempt := false))
    else Some((Normal, left.value.1.(exempt := true)))
  }

  lemma {:induction false} MoreForSeq(o: Oracle, h: Option<Node>, fuel: nat, more: nat, nodes: seq<Node>, next: nat,
                                      ctx: Context, sh: Shell)
    requires fuel <= more && RunSeq(o, h, fuel, nodes, next, ctx, sh).Some?
    ensures RunSeq(o, h, more, nodes, next, ctx, sh) == RunSeq(o, h, fuel, nodes, next, ctx, sh)
    decreases fuel, 0
  {
    hide Run;
    if !(next > 0 && Exits(ctx.cond, sh)) && next < |nodes| {
      MoreFuel(o, h, fuel - 1, more - 1, nodes[next], ctx, sh);
      var (signal, s) := Run(o, h, fuel - 1, nodes[next], ctx, sh).value;
      if signal.Normal? {
        MoreForSeq(o, h, fuel - 1, more - 1, nodes, next + 1, ctx, s);
      }
    }
  }

  lemma {:induction false} MoreForIf(o: Oracle, h: Option<Node>, fuel: nat, more: nat, branches: seq<Branch>, next: nat,
                                     els: Option<Node>, ctx: Context, sh: Shell)
    requires fuel <= more && RunIf(o, h, fuel, branches, next, els, ctx, sh).Some?
    ensures RunIf(o, h, more, branches, next, els, ctx, sh) == RunIf(o, h, fuel, branches, next, els, ctx, sh)
    decreases fuel, 0
  {
    hide Run;
    if next < |branches| {
      var cond := branches[next].cond;
      MoreFuel(o, h, fuel - 1, more - 1, cond, ctx.(cond := ctx.cond + 1), sh);
      var (signal, s) := Run(o, h, fuel - 1, cond, ctx.(cond := ctx.cond + 1), sh).value;
      if signal.Normal? && s.status == 0 {
        MoreFuel(o, h, fuel - 1, more - 1, branches[next].body, ctx, s);
      } else if signal.Normal? {
        MoreForIf(o, h, fuel - 1, more - 1, branches, next + 1, els, ctx, s);
      }
    } else if els.Some? {
      MoreFuel(o, h, fuel - 1, more - 1, els.value, ctx, sh);
    }
  }

  lemma {:induction false} MoreForWhile(o: Oracle, h: Option<Node>, fuel: nat, more: nat, cond: Node, body: Node,
                                        until: bool, bodyStatus: int, ctx: Context, sh: Shell)
    requires fuel <= more && RunWhile(o, h, fuel, cond, body, until, bodyStatus, ctx, sh).Some?
    ensures RunWhile(o, h, more, cond, body, until, bodyStatus, ctx, sh) ==
            RunWhile(o, h, fuel, cond, body, until, bodyStatus, ctx, sh)
    decreases fuel, 0
  {
    hide Run, GoesRound, Consume, RunWhile;
    WhileUnfolds(o, h, fuel, cond, body, until, bodyStatus, ctx, sh);
    WhileUnfolds(o, h, more, cond, body, until, bodyStatus, ctx, sh);
    var tested := ctx.(cond := ctx.cond + 1);
    MoreFuel(o, h, fuel - 1, more - 1, cond, tested, sh);
    var (signal, s) := Run(o, h, fuel - 1, cond, tested, sh).value;
    if (s.status == 0) != until && signal.Normal? {
      var inside := ctx.(bodies := ctx.bodies + 1);
      MoreFuel(o, h, fuel - 1, more - 1, body, inside, s);
      var (ended, t) := Run(o, h, fuel - 1, body, inside, s).value;
      if GoesRound(ended) {
        MoreForWhile(o, h, fuel - 1, more - 1, cond, body, until, t.status, ctx, t);
      }
    }
  }

  lemma WhileUnfolds(o: Oracle, h: Option<Node>, fuel: nat, cond: Node, body: Node, until: bool, bodyStatus: int,
                     ctx: Context, sh: Shell)
    ensures fuel == 0 ==> RunWhile(o, h, fuel, cond, body, until, bodyStatus, ctx, sh) == None
    ensures fuel > 0 ==>
              RunWhile(o, h, fuel, cond, body, until, bodyStatus, ctx, sh) ==
              AfterTest(o, h, fuel - 1, cond, body, until, bodyStatus, ctx,
                        Run(o, h, fuel - 1, cond, ctx.(cond := ctx.cond + 1), sh))
  {
    hide Run, GoesRound, Consume;
  }

  /** The rest of a round whose condition has been tested. */
  function AfterTest(o: Oracle, h: Option<Node>, fuel: nat, cond: Node, body: Node, until: bool, bodyStatus: int,
                     ctx: Context, test: Result): Result {
    if test.None? then None
    else
      var (signal, s) := test.value;
      if (s.status == 0) == until || !signal.Normal? then Some((signal, s.(status := bodyStatus)))
      else AfterRound(o, h, fuel, cond, body, until, ctx, Run(o, h, fuel, body, ctx.(bodies := ctx.bodies + 1), s))
  }

  /** The rest of a loop whose body has run. */
  function AfterRound(o: Oracle, h: Option<Node>, fuel: nat, cond: Node, body: Node, until: bool, ctx: Context,
                      round: Result): Result {
    if round.None? then None
    else
      var (ended, t) := round.value;
      if GoesRound(ended) then RunWhile(o, h, fuel, cond, body, until, t.status, ctx, t) else Some((Consume(ended), t))
  }

  lemma {:induction false} MoreForFor(o: Oracle, h: Option<Node>, fuel: nat, more: nat, name: string,
                                      items: seq<string>, body: Node, next: nat, bodyStatus: int, ctx: Context,
                                      sh: Shell)
    requires fuel <= more && RunFor(o, h, fuel, name, items, body, next, bodyStatus, ctx, sh).Some?
    ensures RunFor(o, h, more, name, items, body, next, bodyStatus, ctx, sh) ==
            RunFor(o, h, fuel, name, items, body, next, bodyStatus, ctx, sh)
    decreases fuel, 0
  {
    hide Run;
    if next < |items| {
      var inside := ctx.(bodies := ctx.bodies + 1);
      var s := Bind(name, items[next], sh);
      MoreFuel(o, h, fuel - 1, more - 1, body, inside, s);
      var (ended, t) := Run(o, h, fuel - 1, body, inside, s).value;
      if GoesRound(ended) {
        MoreForFor(o, h, fuel - 1, more - 1, name, items, body, next + 1, t.status, ctx, t);
      }
    }
  }

  /** A node ends in one way only, however deep it nests. */
  lemma EndsOnce(o: Oracle, h: Option<Node>, node: Node, ctx: Context, sh: Shell, signal: Signal, s: Shell,
                 signal2: Signal, s2: Shell)
    requires Ends(o, h, node, ctx, sh, signal, s) && Ends(o, h, node, ctx, sh, signal2, s2)
    ensures signal == signal2 && s == s2
  {
    hide Run;
    var x: nat :| Run(o, h, x, node, ctx, sh) == Some((signal, s));
    var y: nat :| Run(o, h, y, node, ctx, sh) == Some((signal2, s2));
    if x <= y {
      MoreFuel(o, h, x, y, node, ctx, sh);
    } else {
      MoreFuel(o, h, y, x, node, ctx, sh);
    }
  }

  /** The fuel with which a node ends, at least `least`. */
  lemma FuelFor(o: Oracle, h: Option<Node>, node: Node, ctx: Context, sh: Shell, signal: Signal, s: Shell, least: nat)
    returns (fuel: nat)
    requires Ends(o, h, node, ctx, sh, signal, s)
    ensures fuel >= least && Run(o, h, fuel, node, ctx, sh) == Some((signal, s))
  {
    hide Run;
    var x: nat :| Run(o, h, x, node, ctx, sh) == Some((signal, s));
    fuel := if x < least then least else x;
    MoreFuel(o, h, x, fuel, node, ctx, sh);
  }

  // ----- Commands -----

  /** The status and the signal a reply leaves behind, action by action. */
  predicate Leaves(action: Action, loops: nat, status: int, signal: Signal) {
    match action
    case Done(n) => status == n && signal == Normal
    case ReturnWith(code) => status == code && signal == Return(code)
    case ExitWith(code) => status == code && signal == Exit(code)
    case BreakLoops(n) =>
      if loops > 0 && n > 0 then status == 0 && signal == Break(n) else status == 1 && signal == Normal
    case ContinueLoops(n) =>
      if loops > 0 && n > 0 then status == 0 && signal == Continue(n) else status == 1 && signal == Normal
  }

  /** `s` is the shell behind a command that ran in `sh`: the command saw the status, the conditions and
      the loops around it, its event is the last of the trace, and its status is recorded twice. */
  ghost predicate Performed(o: Oracle, cmd: nat, ctx: Context, sh: Shell, signal: Signal, s: Shell) {
    var request := Request(cmd, sh.status, ctx.cond, ctx.loops);
    var reply := o.command(sh.trace, request);
    && Leaves(reply.action, ctx.loops, s.status, signal)
    && s.pipeStatus == s.status && s.errexit == reply.errexit && !s.exempt && s.handling == sh.handling
    && s.trace == sh.trace + [Ran(request, ctx.bodies, reply)]
  }

  /** The ERR trap runs behind a command that failed outside conditions and outside the trap itself. */
  predicate Traps(h: Option<Node>, ctx: Context, signal: Signal, s: Shell) {
    h.Some? && signal.Normal? && s.status != 0 && ctx.cond == 0 && !s.handling
  }

  /** A command ends with the status and signal its reply asks for; when its failure runs the ERR trap, the
      trap's signal counts, and the failed command's own status unless the trap exits. */
  lemma CommandExactly(o: Oracle, h: Option<Node>, cmd: nat, ctx: Context, sh: Shell, signal: Signal, s: Shell)
    ensures Ends(o, h, Command(cmd), ctx, sh, signal, s) <==>
            exists done, asked ::
              && Performed(o, cmd, ctx, sh, asked, done)
              && (if Traps(h, ctx, asked, done) then
                    exists t :: Ends(o, h, h.value, ctx, done.(handling := true), signal, t) &&
                                s == t.(handling := false, exempt := false,
                                        status := if signal.Exit? then signal.code else done.status)
                  else signal == asked && s == done)
  {
    hide Run;
    var s0 := sh.(exempt := false);
    var (p, asked) := Perform(o, cmd, sh.status, ctx.cond, ctx.loops, ctx.bodies, s0);
    var done := p.(pipeStatus := p.status);
    assert Performed(o, cmd, ctx, sh, asked, done);
    PerformedOnce(o, cmd, ctx, sh);
    if Ends(o, h, Command(cmd), ctx, sh, signal, s) {
      var fuel := FuelFor(o, h, Command(cmd), ctx, sh, signal, s, 1);
      CommandUnfolds(o, h, fuel, cmd, ctx, sh);
      if Traps(h, ctx, asked, done) {
        var (trapped, t) := Run(o, h, fuel - 1, h.value, ctx, done.(handling := true)).value;
        assert Ends(o, h, h.value, ctx, done.(handling := true), signal, t);
      }
    }
    if Traps(h, ctx, asked, done) {
      if t :| Ends(o, h, h.value, ctx, done.(handling := true), signal, t) &&
              s == t.(handling := false, exempt := false, status := if signal.Exit? then signal.code else done.status) {
        var fuel := FuelFor(o, h, h.value, ctx, done.(handling := true), signal, t, 0);
        CommandUnfolds(o, h, fuel + 1, cmd, ctx, sh);
        assert Run(o, h, fuel + 1, Command(cmd), ctx, sh) == Some((signal, s));
      }
    } else if signal == asked && s == done {
      CommandUnfolds(o, h, 1, cmd, ctx, sh);
      assert Run(o, h, 1, Command(cmd), ctx, sh) == Some((signal, s));
    }
  }

  lemma CommandUnfolds(o: Oracle, h: Option<Node>, fuel: nat, cmd: nat, ctx: Context, sh: Shell)
    requires fuel > 0
    ensures Run(o, h, fuel, Command(cmd), ctx, sh) == RunCommand(o, h, fuel, cmd, ctx, sh.(exempt := false))
  {
  }

  lemma PerformedOnce(o: Oracle, cmd: nat, ctx: Context, sh: Shell)
    ensures forall signal, s, signal2, s2 ::
              Performed(o, cmd, ctx, sh, signal, s) && Performed(o, cmd, ctx, sh, signal2, s2) ==>
                signal == signal2 && s == s2
  {
  }

  // ----- Lists -----

  lemma EmptyExactly(o: Oracle, h: Option<Node>, ctx: Context, sh: Shell, signal: Signal, s: Shell)
    ensures Ends(o, h, Empty, ctx, sh, signal, s) <==> signal == Normal && s == sh.(status := 0)
  {
    assert Run(o, h, 1, Empty, ctx, sh) == Some((Normal, sh.(status := 0)));
  }

  lemma GroupExactly(o: Oracle, h: Option<Node>, inner: Node, ctx: Context, sh: Shell, signal: Signal, s: Shell)
    ensures Ends(o, h, Group(inner), ctx, sh, signal, s) <==> Ends(o, h, inner, ctx, sh, signal, s)
  {
    if fuel: nat :| Run(o, h, fuel, Group(inner), ctx, sh) == Some((signal, s)) {
      assert Run(o, h, fuel - 1, inner, ctx, sh) == Some((signal, s));
    }
    if fuel: nat :| Run(o, h, fuel, inner, ctx, sh) == Some((signal, s)) {
      assert Run(o, h, fuel + 1, Group(inner), ctx, sh) == Some((signal, s));
    }
  }

  /** `!` swaps success and failure of its operand, which runs as a condition, and lets the signal pass. */
  lemma NotExactly(o: Oracle, h: Option<Node>, inner: Node, ctx: Context, sh: Shell, signal: Signal, s: Shell)
    ensures Ends(o, h, Not(inner), ctx, sh, signal, s) <==>
            exists t :: Ends(o, h, inner, ctx.(cond := ctx.cond + 1), sh, signal, t) &&
                        s == t.(exempt := true, status := if t.status == 0 then 1 else 0)
  {
    var tested := ctx.(cond := ctx.cond + 1);
    if fuel: nat :| Run(o, h, fuel, Not(inner), ctx, sh) == Some((signal, s)) {
      var (_, t) := Run(o, h, fuel - 1, inner, tested, sh).value;
      assert Ends(o, h, inner, tested, sh, signal, t);
    }
    if t :| Ends(o, h, inner, tested, sh, signal, t) && s == t.(exempt := true,
                                                                status := if t.status == 0 then 1 else 0) {
      var fuel := FuelFor(o, h, inner, tested, sh, signal, t, 0);
      assert Run(o, h, fuel + 1, Not(inner), ctx, sh) == Some((signal, s));
    }
  }

  /** Behind the left part of an and-list (`wanted` is success) or an or-list (failure): the right part runs
      exactly when the left one ended normally with the wanted outcome. */
  ghost predicate Continues(o: Oracle, h: Option<Node>, rhs: Node, wanted: bool, ctx: Context, left: Signal, t: Shell,
                            signal: Signal, s: Shell) {
    if !left.Normal? then signal == left && s == t
    else if (t.status == 0) == wanted then Ends(o, h, rhs, ctx, t.(exempt := false), signal, s)
    else signal == Normal && s == t.(exempt := true)
  }

  lemma AndExactly(o: Oracle, h: Option<Node>, lhs: Node, rhs: Node, ctx: Context, sh: Shell, signal: Signal, s: Shell)
    ensures Ends(o, h, And(lhs, rhs), ctx, sh, signal, s) <==>
            exists left, t :: Ends(o, h, lhs, ctx.(cond := ctx.cond + 1), sh, left, t) &&
                              Continues(o, h, rhs, true, ctx, left, t, signal, s)
  {
    AndOrExactly(o, h, And(lhs, rhs), lhs, rhs, true, ctx, sh, signal, s);
  }

  lemma OrExactly(o: Oracle, h: Option<Node>, lhs: Node, rhs: Node, ctx: Context, sh: Shell, signal: Signal, s: Shell)
    ensures Ends(o, h, Or(lhs, rhs), ctx, sh, signal, s) <==>
            exists left, t :: Ends(o, h, lhs, ctx.(cond := ctx.cond + 1), sh, left, t) &&
                              Continues(o, h, rhs, false, ctx, left, t, signal, s)
  {
    AndOrExactly(o, h, Or(lhs, rhs), lhs, rhs, false, ctx, sh, signal, s);
  }

  lemma AndOrExactly(o: Oracle, h: Option<Node>, node: Node, lhs: Node, rhs: Node, wanted: bool, ctx: Context,
                     sh: Shell,
                     signal: Signal, s: Shell)
    requires node == if wanted then And(lhs, rhs) else Or(lhs, rhs)
    ensures Ends(o, h, node, ctx, sh, signal, s) <==>
            exists left, t :: Ends(o, h, lhs, ctx.(cond := ctx.cond + 1), sh, left, t) &&
                              Continues(o, h, rhs, wanted, ctx, left, t, signal, s)
  {
    hide Run;
    var tested := ctx.(cond := ctx.cond + 1);
    if Ends(o, h, node, ctx, sh, signal, s) {
      var fuel := FuelFor(o, h, node, ctx, sh, signal, s, 1);
      NodeAndOr(o, h, fuel, node, lhs, rhs, wanted, ctx, sh);
      AndOrUnfolds(o, h, fuel, lhs, rhs, wanted, ctx, sh);
      var (left, t) := Run(o, h, fuel - 1, lhs, tested, sh).value;
      assert Ends(o, h, lhs, tested, sh, left, t);
      assert Continues(o, h, rhs, wanted, ctx, left, t, signal, s);
    }
    if left, t :| Ends(o, h, lhs, tested, sh, left, t) && Continues(o, h, rhs, wanted, ctx, left, t, signal, s) {
      var fuel := FuelFor(o, h, lhs, tested, sh, left, t, 0);
      if left.Normal? && (t.status == 0) == wanted {
        var more := FuelFor(o, h, rhs, ctx, t.(exempt := false), signal, s, fuel);
        MoreFuel(o, h, fuel, more, lhs, tested, sh);
        fuel := more;
      }
      NodeAndOr(o, h, fuel + 1, node, lhs, rhs, wanted, ctx, sh);
      AndOrUnfolds(o, h, fuel + 1, lhs, rhs, wanted, ctx, sh);
    }
  }

  lemma NodeAndOr(o: Oracle, h: Option<Node>, fuel: nat, node: Node, lhs: Node, rhs: Node, wanted: bool, ctx: Context,
                  sh: Shell)
    requires fuel > 0 && node == if wanted then And(lhs, rhs) else Or(lhs, rhs)
    ensures Run(o, h, fuel, node, ctx, sh) == RunAndOr(o, h, fuel, lhs, rhs, wanted, ctx, sh)
  {
  }

  /** `set -e` ends a list behind an element that failed where failures count. */
  predicate Fatal(ctx: Context, s: Shell) {
    s.errexit && s.status != 0 && ctx.cond == 0 && !s.exempt
  }

  /** The elements of a list one after the other, up to the first one that ends otherwise than normally or,
      under `set -e`, fails. `begun` says whether an element has run. */
  ghost predicate Listed(o: Oracle, h: Option<Node>, nodes: seq<Node>, begun: bool, ctx: Context, sh: Shell,
                         signal: Signal, s: Shell)
    decreases |nodes|
  {
    if begun && Fatal(ctx, sh) then signal == Exit(sh.status) && s == sh
    else if nodes == [] then signal == Normal && s == sh
    else exists ended, t ::
           && Ends(o, h, nodes[0], ctx, sh, ended, t)
           && (if ended.Normal? then Listed(o, h, nodes[1..], true, ctx, t, signal, s) else signal == ended && s == t)
  }

  lemma SeqExactly(o: Oracle, h: Option<Node>, nodes: seq<Node>, ctx: Context, sh: Shell, signal: Signal, s: Shell)
    ensures Ends(o, h, Seq(nodes), ctx, sh, signal, s) <==> Listed(o, h, nodes, false, ctx, sh.(status := 0), signal, s)
  {
    hide Listed;
    assert nodes[0..] == nodes;
    if fuel: nat :| Run(o, h, fuel, Seq(nodes), ctx, sh) == Some((signal, s)) {
      SeqListed(o, h, fuel - 1, nodes, 0, ctx, sh.(status := 0), signal, s);
    }
    if Listed(o, h, nodes, false, ctx, sh.(status := 0), signal, s) {
      var fuel := ListedRuns(o, h, nodes, 0, ctx, sh.(status := 0), signal, s);
      assert Run(o, h, fuel + 1, Seq(nodes), ctx, sh) == Some((signal, s));
    }
  }

  lemma {:induction false} SeqListed(o: Oracle, h: Option<Node>, fuel: nat, nodes: seq<Node>, next: nat, ctx: Context,
                                     sh: Shell, signal: Signal, s: Shell)
    requires next <= |nodes| && RunSeq(o, h, fuel, nodes, next, ctx, sh) == Some((signal, s))
    ensures Listed(o, h, nodes[next..], next > 0, ctx, sh, signal, s)
    decreases fuel
  {
    hide Run;
    if !(next > 0 && Exits(ctx.cond, sh)) && next < |nodes| {
      var (ended, t) := Run(o, h, fuel - 1, nodes[next], ctx, sh).value;
      assert nodes[next..][0] == nodes[next] && nodes[next..][1..] == nodes[next + 1..];
      assert Ends(o, h, nodes[next..][0], ctx, sh, ended, t);
      if ended.Normal? {
        SeqListed(o, h, fuel - 1, nodes, next + 1, ctx, t, signal, s);
      }
    }
  }

  lemma {:induction false} ListedRuns(o: Oracle, h: Option<Node>, nodes: seq<Node>, next: nat, ctx: Context, sh: Shell,
                                      signal: Signal, s: Shell) returns (fuel: nat)
    requires next <= |nodes| && Listed(o, h, nodes[next..], next > 0, ctx, sh, signal, s)
    ensures RunSeq(o, h, fuel, nodes, next, ctx, sh) == Some((signal, s))
    decreases |nodes| - next
  {
    hide Run, Ends;
    fuel := 1;
    if !(next > 0 && Exits(ctx.cond, sh)) && next < |nodes| {
      assert nodes[next..][0] == nodes[next] && nodes[next..][1..] == nodes[next + 1..];
      var ended, t :| Ends(o, h, nodes[next], ctx, sh, ended, t) &&
        (if ended.Normal? then Listed(o, h, nodes[next + 1..], true, ctx, t, signal, s) else signal == ended && s == t);
      var rest := 0;
      if ended.Normal? {
        rest := ListedRuns(o, h, nodes, next + 1, ctx, t, signal, s);
      }
      var more := FuelFor(o, h, nodes[next], ctx, sh, ended, t, rest);
      if ended.Normal? {
        MoreForSeq(o, h, rest, more, nodes, next + 1, ctx, t);
      }
      fuel := more + 1;
    }
  }

  // ----- Branches -----

  /** Behind the condition of an `if`: its body when the condition ended normally with success, its `else`
      part, or success when there is none, when the condition failed. */
  ghost predicate Chosen(o: Oracle, h: Option<Node>, body: Node, els: Option<Node>, ctx: Context, test: Signal,
                         t: Shell,
                         signal: Signal, s: Shell) {
    if !test.Normal? then signal == test && s == t
    else if t.status == 0 then Ends(o, h, body, ctx, t, signal, s)
    else if els.Some? then Ends(o, h, els.value, ctx, t, signal, s)
    else signal == Normal && s == t.(status := 0)
  }

  lemma IfExactly(o: Oracle, h: Option<Node>, cond: Node, body: Node, els: Option<Node>, ctx: Context, sh: Shell,
                  signal: Signal, s: Shell)
    ensures Ends(o, h, If(cond, body, [], els), ctx, sh, signal, s) <==>
            exists test, t :: Ends(o, h, cond, ctx.(cond := ctx.cond + 1), sh, test, t) &&
                              Chosen(o, h, body, els, ctx, test, t, signal, s)
  {
    hide Run, RunIf;
    var node, tested := If(cond, body, [], els), ctx.(cond := ctx.cond + 1);
    assert Branches(node) == [Branch(cond, body)];
    if Ends(o, h, node, ctx, sh, signal, s) {
      var fuel := FuelFor(o, h, node, ctx, sh, signal, s, 3);
      IfUnfolds(o, h, fuel, node, ctx, sh);
      OneBranch(o, h, fuel - 2, cond, body, els, ctx, sh);
      var (test, t) := Run(o, h, fuel - 2, cond, tested, sh).value;
      assert Ends(o, h, cond, tested, sh, test, t) && Chosen(o, h, body, els, ctx, test, t, signal, s);
    }
    if test, t :| Ends(o, h, cond, tested, sh, test, t) && Chosen(o, h, body, els, ctx, test, t, signal, s) {
      var fuel := FuelFor(o, h, cond, tested, sh, test, t, 1);
      if test.Normal? && (t.status == 0 || els.Some?) {
        var chosen := if t.status == 0 then body else els.value;
        var more := FuelFor(o, h, chosen, ctx, t, signal, s, fuel);
        MoreFuel(o, h, fuel, more + 1, cond, tested, sh);
        MoreFuel(o, h, more, more + 1, chosen, ctx, t);
        fuel := more + 1;
      }
      OneBranch(o, h, fuel, cond, body, els, ctx, sh);
      IfUnfolds(o, h, fuel + 2, node, ctx, sh);
      assert Run(o, h, fuel + 2, node, ctx, sh) == Some((signal, s));
    }
  }

  lemma OneBranch(o: Oracle, h: Option<Node>, fuel: nat, cond: Node, body: Node, els: Option<Node>, ctx: Context,
                  sh: Shell)
    requires fuel > 0
    ensures RunIf(o, h, fuel + 1, [Branch(cond, body)], 0, els, ctx, sh) ==
            match Run(o, h, fuel, cond, ctx.(cond := ctx.cond + 1), sh)
            case None => None
            case Some((test, t)) =>
              if !test.Normal? then Some((test, t))
              else if t.status == 0 then Run(o, h, fuel, body, ctx, t)
              else if els.Some? then Run(o, h, fuel - 1, els.value, ctx, t)
              else Some((Normal, t.(status := 0)))
  {
    hide Run;
    var branches := [Branch(cond, body)];
    match Run(o, h, fuel, cond, ctx.(cond := ctx.cond + 1), sh)
    case None =>
    case Some((test, t)) =>
      LastBranch(o, h, fuel, branches, els, ctx, t);
  }

  lemma IfUnfolds(o: Oracle, h: Option<Node>, fuel: nat, node: Node, ctx: Context, sh: Shell)
    requires node.If? && fuel > 0
    ensures Run(o, h, fuel, node, ctx, sh) == RunIf(o, h, fuel - 1, Branches(node), 0, node.els, ctx, sh)
  {
  }

  lemma NoFuel(o: Oracle, h: Option<Node>, node: Node, ctx: Context, sh: Shell)
    ensures Run(o, h, 0, node, ctx, sh) == None
  {
  }

  lemma LastBranch(o: Oracle, h: Option<Node>, fuel: nat, branches: seq<Branch>, els: Option<Node>, ctx: Context,
                   sh: Shell)
    requires fuel > 0
    ensures RunIf(o, h, fuel, branches, |branches|, els, ctx, sh) ==
            if els.Some? then Run(o, h, fuel - 1, els.value, ctx, sh) else Some((Normal, sh.(status := 0)))
  {
    hide Run;
  }

  /** `elif` is an `if` in the `else` part: both programs end with the same signal, state and trace. */
  lemma ElifNests(o: Oracle, h: Option<Node>, cond: Node, body: Node, elif: Branch, rest: seq<Branch>,
                  els: Option<Node>, ctx: Context, sh: Shell, signal: Signal, s: Shell)
    ensures Ends(o, h, If(cond, body, [elif] + rest, els), ctx, sh, signal, s) <==>
            Ends(o, h, If(cond, body, [], Some(If(elif.cond, elif.body, rest, els))), ctx, sh, signal, s)
  {
    hide Run, RunIf;
    var flat := If(cond, body, [elif] + rest, els);
    var inner := If(elif.cond, elif.body, rest, els);
    var nested := If(cond, body, [], Some(inner));
    assert Branches(nested) == [Branch(cond, body)] && Branches(flat) == [Branch(cond, body)] + Branches(inner);
    if Ends(o, h, flat, ctx, sh, signal, s) {
      var fuel := FuelFor(o, h, flat, ctx, sh, signal, s, 1);
      IfUnfolds(o, h, fuel, flat, ctx, sh);
      FlatRuns(o, h, fuel - 1, fuel + 3, inner, Branch(cond, body), els, ctx, sh, signal, s);
      IfUnfolds(o, h, fuel + 4, nested, ctx, sh);
    }
    if Ends(o, h, nested, ctx, sh, signal, s) {
      var fuel := FuelFor(o, h, nested, ctx, sh, signal, s, 1);
      IfUnfolds(o, h, fuel, nested, ctx, sh);
      NestedRuns(o, h, fuel - 1, inner, Branch(cond, body), els, ctx, sh, signal, s);
      IfUnfolds(o, h, fuel, flat, ctx, sh);
    }
  }

  lemma FlatRuns(o: Oracle, h: Option<Node>, fuel: nat, more: nat, inner: Node, first: Branch, els: Option<Node>,
                 ctx: Context, sh: Shell, signal: Signal, s: Shell)
    requires inner.If? && inner.els == els && more >= fuel + 3
    requires RunIf(o, h, fuel, [first] + Branches(inner), 0, els, ctx, sh) == Some((signal, s))
    ensures RunIf(o, h, more, [first], 0, Some(inner), ctx, sh) == Some((signal, s))
  {
    hide Run, Branches;
    var branches := [first] + Branches(inner);
    var tested := ctx.(cond := ctx.cond + 1);
    var (test, t) := Run(o, h, fuel - 1, first.cond, tested, sh).value;
    MoreFuel(o, h, fuel - 1, more - 1, first.cond, tested, sh);
    if test.Normal? && t.status == 0 {
      MoreFuel(o, h, fuel - 1, more - 1, first.body, ctx, t);
    } else if test.Normal? {
      Shifted(o, h, fuel - 1, first, Branches(inner), 0, els, ctx, t);
      MoreForIf(o, h, fuel - 1, more - 3, Branches(inner), 0, els, ctx, t);
      IfUnfolds(o, h, more - 2, inner, ctx, t);
      LastBranch(o, h, more - 1, [first], Some(inner), ctx, t);
    }
  }

  lemma NestedRuns(o: Oracle, h: Option<Node>, fuel: nat, inner: Node, first: Branch, els: Option<Node>, ctx: Context,
                   sh: Shell, signal: Signal, s: Shell)
    requires inner.If? && inner.els == els && RunIf(o, h, fuel, [first], 0, Some(inner), ctx, sh) == Some((signal, s))
    ensures RunIf(o, h, fuel, [first] + Branches(inner), 0, els, ctx, sh) == Some((signal, s))
  {
    hide Run, Branches;
    var branches := [first] + Branches(inner);
    var (test, t) := Run(o, h, fuel - 1, first.cond, ctx.(cond := ctx.cond + 1), sh).value;
    if test.Normal? && t.status != 0 {
      LastBranch(o, h, fuel - 1, [first], Some(inner), ctx, t);
      NoFuel(o, h, inner, ctx, t);
      IfUnfolds(o, h, fuel - 2, inner, ctx, t);
      MoreForIf(o, h, fuel - 3, fuel - 1, Branches(inner), 0, els, ctx, t);
      Shifted(o, h, fuel - 1, first, Branches(inner), 0, els, ctx, t);
    }
  }

  /** A branch that has been passed does not matter any more. */
  lemma {:induction false} Shifted(o: Oracle, h: Option<Node>, fuel: nat, first: Branch, branches: seq<Branch>,
                                   next: nat, els: Option<Node>, ctx: Context, sh: Shell)
    ensures RunIf(o, h, fuel, [first] + branches, next + 1, els, ctx, sh) ==
            RunIf(o, h, fuel, branches, next, els, ctx, sh)
    decreases fuel
  {
    hide Run;
    if fuel > 0 && next < |branches| {
      assert ([first] + branches)[next + 1] == branches[next];
      match Run(o, h, fuel - 1, branches[next].cond, ctx.(cond := ctx.cond + 1), sh)
      case None =>
      case Some((_, t)) => Shifted(o, h, fuel - 1, first, branches, next + 1, els, ctx, t);
    }
  }

  // ----- Loops -----

  /** What a loop passes on when its body ended with `ended` and it does not go round again. */
  predicate Outward(ended: Signal, signal: Signal) {
    match ended
    case Break(n) => if n == 1 then signal == Normal else signal == Break(n - 1)
    case Continue(n) => n > 1 && signal == Continue(n - 1)
    case _ => signal == ended
  }

  /** A loop goes round again behind a body that ended normally or asked to continue this loop. */
  predicate Again(ended: Signal) {
    ended == Normal || ended == Continue(1)
  }

  /** A `while` or `until` where it runs, one loop further in than it stands. */
  datatype Loop = Loop(o: Oracle, h: Option<Node>, cond: Node, body: Node, until: bool, ctx: Context)

  /** The condition of a loop ends. */
  ghost predicate TestEnds(w: Loop, start: Shell, signal: Signal, t: Shell) {
    Ends(w.o, w.h, w.cond, w.ctx.(cond := w.ctx.cond + 1), start, signal, t)
  }

  /** The body of a loop ends. */
  ghost predicate BodyEnds(w: Loop, t: Shell, ended: Signal, u: Shell) {
    Ends(w.o, w.h, w.body, w.ctx.(bodies := w.ctx.bodies + 1), t, ended, u)
  }

  /** One whole round: the state behind the condition, how the body ended, and the state behind the body. */
  datatype Round = Round(t: Shell, ended: Signal, u: Shell)

  /** A loop from `start` on runs its body: the condition ends normally and not as `until` says. */
  ghost predicate RunsBody(w: Loop, start: Shell, r: Round) {
    TestEnds(w, start, Normal, r.t) && (r.t.status == 0) != w.until && BodyEnds(w, r.t, r.ended, r.u)
  }

  function Behind(sh: Shell, rounds: seq<Round>, i: nat): Shell
    requires i <= |rounds|
  {
    if i == 0 then sh else rounds[i - 1].u
  }

  function LastStatus(rounds: seq<Round>, bodyStatus: int): int {
    if rounds == [] then bodyStatus else rounds[|rounds| - 1].u.status
  }

  /** Whole rounds one after the other, each of which lets the loop go round again. */
  ghost predicate Rounds(w: Loop, sh: Shell, rounds: seq<Round>) {
    forall i :: 0 <= i < |rounds| ==> RunsBody(w, Behind(sh, rounds, i), rounds[i]) && Again(rounds[i].ended)
  }

  /** The condition ends the loop, with the status of the last body: it ends otherwise than normally, or
      comes out as `until` says. */
  ghost predicate CondStops(w: Loop, start: Shell, bodyStatus: int, signal: Signal, s: Shell) {
    exists t :: TestEnds(w, start, signal, t) && (!signal.Normal? || (t.status == 0) == w.until) &&
                s == t.(status := bodyStatus)
  }

  /** The body leaves the loop. */
  ghost predicate BodyLeaves(w: Loop, start: Shell, signal: Signal, s: Shell) {
    exists r :: RunsBody(w, start, r) && !Again(r.ended) && Outward(r.ended, signal) && s == r.u
  }

  /** The round that ends a loop. */
  ghost predicate Closes(w: Loop, start: Shell, bodyStatus: int, signal: Signal, s: Shell) {
    CondStops(w, start, bodyStatus, signal, s) || BodyLeaves(w, start, signal, s)
  }

  ghost predicate Loops(w: Loop, sh: Shell, bodyStatus: int, rounds: seq<Round>, signal: Signal, s: Shell) {
    && Rounds(w, sh, rounds)
    && Closes(w, Behind(sh, rounds, |rounds|), LastStatus(rounds, bodyStatus), signal, s)
  }

  /** Some number of whole rounds, and the round that ends the loop. */
  ghost predicate Looped(w: Loop, sh: Shell, bodyStatus: int, signal: Signal, s: Shell) {
    exists rounds :: Loops(w, sh, bodyStatus, rounds, signal, s)
  }

  /** A `while` or `until` ends as its rounds do, from status zero and one loop further in. */
  lemma WhileExactly(o: Oracle, h: Option<Node>, cond: Node, body: Node, until: bool, ctx: Context, sh: Shell,
                     signal: Signal, s: Shell)
    ensures Ends(o, h, While(cond, body, until), ctx, sh, signal, s) <==>
            Looped(Loop(o, h, cond, body, until, ctx.(loops := ctx.loops + 1)), sh.(status := 0), 0, signal, s)
  {
    hide Loops;
    var node, w := While(cond, body, until), Loop(o, h, cond, body, until, ctx.(loops := ctx.loops + 1));
    if fuel: nat :| Run(o, h, fuel, node, ctx, sh) == Some((signal, s)) {
      WhileLoops(w, fuel - 1, 0, sh.(status := 0), signal, s);
    }
    if rounds :| Loops(w, sh.(status := 0), 0, rounds, signal, s) {
      var fuel := LoopsRun(w, sh.(status := 0), 0, rounds, signal, s);
      assert Run(o, h, fuel + 1, node, ctx, sh) == Some((signal, s));
    }
  }

  lemma RoundAgain(ended: Signal)
    ensures GoesRound(ended) <==> Again(ended)
    ensures !Again(ended) ==> Outward(ended, Consume(ended))
    ensures forall signal :: !Again(ended) && Outward(ended, signal) ==> signal == Consume(ended)
  {
  }

  /** The fuelled loop. */
  function RunLoop(w: Loop, fuel: nat, bodyStatus: int, sh: Shell): Result {
    RunWhile(w.o, w.h, fuel, w.cond, w.body, w.until, bodyStatus, w.ctx, sh)
  }

  lemma LoopsNow(w: Loop, sh: Shell, bodyStatus: int, signal: Signal, s: Shell)
    requires Closes(w, sh, bodyStatus, signal, s)
    ensures Looped(w, sh, bodyStatus, signal, s)
  {
    hide Closes;
    assert Loops(w, sh, bodyStatus, [], signal, s);
  }

  lemma LoopsAgain(w: Loop, sh: Shell, bodyStatus: int, first: Round, signal: Signal, s: Shell)
    requires RunsBody(w, sh, first) && Again(first.ended) && Looped(w, first.u, first.u.status, signal, s)
    ensures Looped(w, sh, bodyStatus, signal, s)
  {
    hide Rounds, RunsBody, Closes, Again, Behind, LastStatus;
    var rest :| Loops(w, first.u, first.u.status, rest, signal, s);
    var rounds := [first] + rest;
    RoundsAgain(w, sh, first, rest);
    LastOf(first, rest, sh, bodyStatus);
    assert Loops(w, sh, bodyStatus, rounds, signal, s);
  }

  lemma LastOf(first: Round, rest: seq<Round>, sh: Shell, bodyStatus: int)
    ensures var rounds := [first] + rest;
            && Behind(sh, rounds, |rounds|) == Behind(first.u, rest, |rest|)
            && LastStatus(rounds, bodyStatus) == LastStatus(rest, first.u.status)
  {
  }

  lemma RoundsAgain(w: Loop, sh: Shell, first: Round, rest: seq<Round>)
    requires RunsBody(w, sh, first) && Again(first.ended) && Rounds(w, first.u, rest)
    ensures Rounds(w, sh, [first] + rest)
  {
    hide RunsBody, Again;
    var rounds := [first] + rest;
    forall i | 0 <= i < |rounds|
      ensures RunsBody(w, Behind(sh, rounds, i), rounds[i]) && Again(rounds[i].ended)
    {
      if i > 0 {
        assert rounds[i] == rest[i - 1] && Behind(sh, rounds, i) == Behind(first.u, rest, i - 1);
      }
    }
  }

  /** One round of the fuelled loop: it is closed, or goes on behind a whole round. */
  lemma WhileRound(w: Loop, fuel: nat, bodyStatus: int, sh: Shell, signal: Signal, s: Shell) returns (r: Round)
    requires RunLoop(w, fuel, bodyStatus, sh) == Some((signal, s))
    ensures fuel > 0
    ensures || Closes(w, sh, bodyStatus, signal, s)
            || (RunsBody(w, sh, r) && Again(r.ended) && RunLoop(w, fuel - 1, r.u.status, r.u) == Some((signal, s)))
  {
    hide Run, RunWhile, Closes, RunsBody, Again, AfterRound;
    WhileUnfolds(w.o, w.h, fuel, w.cond, w.body, w.until, bodyStatus, w.ctx, sh);
    var tested := w.ctx.(cond := w.ctx.cond + 1);
    var (test, t) := Run(w.o, w.h, fuel - 1, w.cond, tested, sh).value;
    r := Round(t, test, t);
    if (t.status == 0) != w.until && test.Normal? {
      var inside := w.ctx.(bodies := w.ctx.bodies + 1);
      NothingAfter(w, fuel - 1);
      var (ended, u) := Run(w.o, w.h, fuel - 1, w.body, inside, t).value;
      r := Round(t, ended, u);
      RoundRan(w, fuel - 1, sh, r);
      RoundEnds(w, fuel - 1, bodyStatus, sh, r, signal, s);
    } else {
      StopsBy(w, fuel - 1, sh, bodyStatus, signal, t);
    }
  }

  lemma NothingAfter(w: Loop, fuel: nat)
    ensures AfterRound(w.o, w.h, fuel, w.cond, w.body, w.until, w.ctx, None) == None
  {
  }

  lemma RoundRan(w: Loop, fuel: nat, sh: Shell, r: Round)
    requires Run(w.o, w.h, fuel, w.cond, w.ctx.(cond := w.ctx.cond + 1), sh) == Some((Normal, r.t))
    requires Run(w.o, w.h, fuel, w.body, w.ctx.(bodies := w.ctx.bodies + 1), r.t) == Some((r.ended, r.u))
    requires (r.t.status == 0) != w.until
    ensures RunsBody(w, sh, r)
  {
    hide Run;
  }

  lemma RoundEnds(w: Loop, fuel: nat, bodyStatus: int, sh: Shell, r: Round, signal: Signal, s: Shell)
    requires RunsBody(w, sh, r)
    requires AfterRound(w.o, w.h, fuel, w.cond, w.body, w.until, w.ctx, Some((r.ended, r.u))) == Some((signal, s))
    ensures if Again(r.ended) then RunLoop(w, fuel, r.u.status, r.u) == Some((signal, s))
            else Closes(w, sh, bodyStatus, signal, s)
  {
    hide RunsBody, RunWhile, Again, Outward, GoesRound, Consume;
    RoundAgain(r.ended);
  }

  lemma StopsBy(w: Loop, fuel: nat, sh: Shell, bodyStatus: int, signal: Signal, t: Shell)
    requires Run(w.o, w.h, fuel, w.cond, w.ctx.(cond := w.ctx.cond + 1), sh) == Some((signal, t))
    requires !signal.Normal? || (t.status == 0) == w.until
    ensures Closes(w, sh, bodyStatus, signal, t.(status := bodyStatus))
  {
    hide Run;
    assert TestEnds(w, sh, signal, t);
  }

  lemma {:induction false} WhileLoops(w: Loop, fuel: nat, bodyStatus: int, sh: Shell, signal: Signal, s: Shell)
    requires RunLoop(w, fuel, bodyStatus, sh) == Some((signal, s))
    ensures Looped(w, sh, bodyStatus, signal, s)
    decreases fuel
  {
    hide RunLoop, Looped, Closes, RunsBody, Again;
    var r := WhileRound(w, fuel, bodyStatus, sh, signal, s);
    if Closes(w, sh, bodyStatus, signal, s) {
      LoopsNow(w, sh, bodyStatus, signal, s);
    } else {
      WhileLoops(w, fuel - 1, r.u.status, r.u, signal, s);
      LoopsAgain(w, sh, bodyStatus, r, signal, s);
    }
  }

  lemma LoopsRest(w: Loop, sh: Shell, bodyStatus: int, rounds: seq<Round>, signal: Signal, s: Shell)
    requires rounds != [] && Loops(w, sh, bodyStatus, rounds, signal, s)
    ensures RunsBody(w, sh, rounds[0]) && Again(rounds[0].ended)
    ensures Loops(w, rounds[0].u, rounds[0].u.status, rounds[1..], signal, s)
  {
    hide Closes, RunsBody, Again;
    var rest, u := rounds[1..], rounds[0].u;
    assert rounds == [rounds[0]] + rest;
    LastOf(rounds[0], rest, sh, bodyStatus);
    forall i | 0 <= i < |rest|
      ensures RunsBody(w, Behind(u, rest, i), rest[i]) && Again(rest[i].ended)
    {
      assert rest[i] == rounds[i + 1] && Behind(u, rest, i) == Behind(sh, rounds, i + 1);
    }
  }

  lemma {:induction false} LoopsRun(w: Loop, sh: Shell, bodyStatus: int, rounds: seq<Round>, signal: Signal, s: Shell)
    returns (fuel: nat)
    requires Loops(w, sh, bodyStatus, rounds, signal, s)
    ensures RunLoop(w, fuel, bodyStatus, sh) == Some((signal, s))
    decreases |rounds|
  {
    hide RunLoop, Again, RunsBody, Closes, Rounds;
    if rounds == [] {
      fuel := LoopEndRuns(w, sh, bodyStatus, signal, s);
    } else {
      LoopsRest(w, sh, bodyStatus, rounds, signal, s);
      var u := rounds[0].u;
      var rest := LoopsRun(w, u, u.status, rounds[1..], signal, s);
      fuel := RoundRuns(w, sh, bodyStatus, rounds[0], rest);
    }
  }

  /** The fuel for a round and at least `least` behind it. */
  lemma RoundRuns(w: Loop, sh: Shell, bodyStatus: int, r: Round, least: nat) returns (fuel: nat)
    requires RunsBody(w, sh, r) && (Again(r.ended) ==> RunLoop(w, least, r.u.status, r.u).Some?)
    ensures RunLoop(w, fuel, bodyStatus, sh) ==
            if Again(r.ended) then RunLoop(w, least, r.u.status, r.u) else Some((Consume(r.ended), r.u))
  {
    hide Run, RunWhile, Ends, GoesRound, Consume, Again, Outward;
    RoundAgain(r.ended);
    var tested, inside := w.ctx.(cond := w.ctx.cond + 1), w.ctx.(bodies := w.ctx.bodies + 1);
    var first := FuelFor(w.o, w.h, w.cond, tested, sh, Normal, r.t, least);
    var more := FuelFor(w.o, w.h, w.body, inside, r.t, r.ended, r.u, first);
    MoreFuel(w.o, w.h, first, more, w.cond, tested, sh);
    if Again(r.ended) {
      MoreForWhile(w.o, w.h, least, more, w.cond, w.body, w.until, r.u.status, w.ctx, r.u);
    }
    WhileUnfolds(w.o, w.h, more + 1, w.cond, w.body, w.until, bodyStatus, w.ctx, sh);
    fuel := more + 1;
  }

  lemma LoopEndRuns(w: Loop, sh: Shell, bodyStatus: int, signal: Signal, s: Shell) returns (fuel: nat)
    requires Closes(w, sh, bodyStatus, signal, s)
    ensures RunLoop(w, fuel, bodyStatus, sh) == Some((signal, s))
  {
    hide Run, RunWhile, Ends, RunsBody, Outward, Consume;
    if CondStops(w, sh, bodyStatus, signal, s) {
      var t :| TestEnds(w, sh, signal, t) && (!signal.Normal? || (t.status == 0) == w.until) &&
               s == t.(status := bodyStatus);
      var more := FuelFor(w.o, w.h, w.cond, w.ctx.(cond := w.ctx.cond + 1), sh, signal, t, 0);
      WhileUnfolds(w.o, w.h, more + 1, w.cond, w.body, w.until, bodyStatus, w.ctx, sh);
      fuel := more + 1;
    } else {
      var r :| RunsBody(w, sh, r) && !Again(r.ended) && Outward(r.ended, signal) && s == r.u;
      RoundAgain(r.ended);
      fuel := RoundRuns(w, sh, bodyStatus, r, 0);
    }
  }

  /** The body of a `for` once for each item in order, with the item bound, up to a round that leaves. */
  ghost predicate EachItem(o: Oracle, h: Option<Node>, name: string, items: seq<string>, body: Node, ctx: Context,
                           sh: Shell, bodyStatus: int, signal: Signal, s: Shell)
    decreases |items|, 1
  {
    if items == [] then signal == Normal && s == sh.(status := bodyStatus)
    else
      var bound := sh.(trace := sh.trace + [Bound(name, items[0])]);
      exists ended, u :: Ends(o, h, body, ctx.(bodies := ctx.bodies + 1), bound, ended, u) &&
                         NextItem(o, h, name, items[1..], body, ctx, ended, u, signal, s)
  }

  ghost predicate NextItem(o: Oracle, h: Option<Node>, name: string, rest: seq<string>, body: Node, ctx: Context,
                           ended: Signal, u: Shell, signal: Signal, s: Shell)
    decreases |rest|, 2
  {
    if Again(ended) then EachItem(o, h, name, rest, body, ctx, u, u.status, signal, s)
    else Outward(ended, signal) && s == u
  }

  /** A `for` asks for its words once, fails as they do, or runs its body for each of them. */
  lemma ForExactly(o: Oracle, h: Option<Node>, name: string, words: nat, body: Node, ctx: Context, sh: Shell,
                   signal: Signal, s: Shell)
    ensures var outcome := o.words(sh.trace, words);
            var asked := sh.(trace := sh.trace + [Expanded(words, outcome)]);
            Ends(o, h, For(name, words, body), ctx, sh, signal, s) <==>
            if outcome.Failed? then
              signal == (if outcome.abortShell then Exit(outcome.status) else Normal) &&
              s == asked.(status := outcome.status)
            else EachItem(o, h, name, outcome.items, body, ctx.(loops := ctx.loops + 1), asked.(status := 0), 0, signal,
                          s)
  {
    hide EachItem;
    var node, inside := For(name, words, body), ctx.(loops := ctx.loops + 1);
    var (asked, outcome) := Expand(o, words, sh);
    if outcome.Failed? {
      assert Run(o, h, 1, node, ctx, sh) ==
             Some((if outcome.abortShell then Exit(outcome.status) else Normal, asked.(status := outcome.status)));
    } else {
      assert outcome.items[0..] == outcome.items;
      if fuel: nat :| Run(o, h, fuel, node, ctx, sh) == Some((signal, s)) {
        ForItems(o, h, fuel - 1, name, outcome.items, body, 0, 0, inside, asked.(status := 0), signal, s);
      }
      if EachItem(o, h, name, outcome.items, body, inside, asked.(status := 0), 0, signal, s) {
        var fuel := ItemsRun(o, h, name, outcome.items, body, 0, inside, asked.(status := 0), 0, signal, s);
        assert Run(o, h, fuel + 1, node, ctx, sh) == Some((signal, s));
      }
    }
  }

  lemma {:induction false} ForItems(o: Oracle, h: Option<Node>, fuel: nat, name: string, items: seq<string>, body: Node,
                                    next: nat, bodyStatus: int, ctx: Context, sh: Shell, signal: Signal, s: Shell)
    requires next <= |items| && RunFor(o, h, fuel, name, items, body, next, bodyStatus, ctx, sh) == Some((signal, s))
    ensures EachItem(o, h, name, items[next..], body, ctx, sh, bodyStatus, signal, s)
    decreases fuel
  {
    hide Run, GoesRound, Consume, Again, Outward;
    if next < |items| {
      var inside, bound := ctx.(bodies := ctx.bodies + 1), Bind(name, items[next], sh);
      var (ended, u) := Run(o, h, fuel - 1, body, inside, bound).value;
      assert items[next..][0] == items[next] && items[next..][1..] == items[next + 1..];
      assert Ends(o, h, body, inside, bound, ended, u);
      RoundAgain(ended);
      if Again(ended) {
        ForItems(o, h, fuel - 1, name, items, body, next + 1, u.status, ctx, u, signal, s);
      }
      assert NextItem(o, h, name, items[next + 1..], body, ctx, ended, u, signal, s);
    }
  }

  lemma {:induction false} ItemsRun(o: Oracle, h: Option<Node>, name: string, items: seq<string>, body: Node, next: nat,
                                    ctx: Context, sh: Shell, bodyStatus: int, signal: Signal, s: Shell)
    returns (fuel: nat)
    requires next <= |items| && EachItem(o, h, name, items[next..], body, ctx, sh, bodyStatus, signal, s)
    ensures RunFor(o, h, fuel, name, items, body, next, bodyStatus, ctx, sh) == Some((signal, s))
    decreases |items| - next
  {
    hide Run, Ends, GoesRound, Consume, Again, Outward;
    fuel := 1;
    if next < |items| {
      var inside, bound := ctx.(bodies := ctx.bodies + 1), Bind(name, items[next], sh);
      assert items[next..][0] == items[next] && items[next..][1..] == items[next + 1..];
      var ended, u :| Ends(o, h, body, inside, bound, ended, u) &&
                      NextItem(o, h, name, items[next + 1..], body, ctx, ended, u, signal, s);
      RoundAgain(ended);
      var rest := 0;
      if Again(ended) {
        rest := ItemsRun(o, h, name, items, body, next + 1, ctx, u, u.status, signal, s);
      }
      var more := FuelFor(o, h, body, inside, bound, ended, u, rest);
      if Again(ended) {
        MoreForFor(o, h, rest, more, name, items, body, next + 1, u.status, ctx, u);
      }
      fuel := more + 1;
    }
  }

  // ----- The machine -----

  /** The machine comes back with an outcome exactly when the node ends with it, so all of the above holds of
      the machine too. */
  lemma MachineEnds(env: M.Env, node: Node, b: M.Config, signal: Signal, s: Shell)
    requires R.NodeFits(env, node, b)
    ensures Ends(env.oracle, env.handler, node, R.ContextOf(b), b.sh, signal, s) <==>
            exists k: nat :: R.Leads(env, R.On(b, M.Eval(node)), k, R.Returned(b, signal, s), |b.frames|)
  {
    hide Run, R.Leads, R.Height, R.Above;
    R.MachineMatchesEvaluator(env, node, b, signal, s);
    if fuel: nat :| Run(env.oracle, env.handler, fuel, node, R.ContextOf(b), b.sh) == Some((signal, s)) {
      assert R.Spec(env, fuel, node, b) == Some((signal, s));
    }
    if fuel: nat :| R.Spec(env, fuel, node, b) == Some((signal, s)) {
      assert Run(env.oracle, env.handler, fuel, node, R.ContextOf(b), b.sh) == Some((signal, s));
    }
  }
}
