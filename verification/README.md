# Verified model of shellsim

shellsim is a small deterministic operating system in one process: a shell interpreter, shell
arithmetic, descriptors and pipes shared by logical processes, a cooperative scheduler, a virtual
clock, a memory budget and a virtual network. This project models the parts with the most state and
branching and proves what holds of them in every run. `dafny verify dfyconfig.toml` checks it.

Each part has up to three layers: the state and its operations as values and functions, theorems
about every input or every run of them, and the objects and loops of the program itself as classes
and methods, proved to do what the functions say.

- **Shell frame machine** (`shell_*.dfy`). The resumable interpreter's stack machine, a recursive
  evaluator with structured break, continue, return and exit, and what each construct means, law by law.
  Simple commands and word lists are an arbitrary oracle that sees the history so far.
- **Arithmetic** (`arith_*.dfy`). Parsing and evaluation in one pass over 64-bit wrapping integers,
  with skipped operands and variables whose text is an expression; the laws of every operator.
- **Descriptors and pipes** (`descriptor*.dfy`). Reference-counted open descriptions shared by
  process tables, bounded pipes, captures and input streams, advisory locks.
- **Wakeups and scheduling** (`scheduler*.dfy`, `wakeups.dfy`, `quiet_closing.dfy`, `call_*.dfy`,
  `machine_object.dfy`). The scheduler's queues and the interpreter's descriptor calls: who blocks,
  who wakes, and in which order tasks run.
- **Virtual timeline** (`timeline*.dfy`). Scheduling, cancelling, jumping and blocking.
- **Memory ledger** (`ledger*.dfy`). Reservations by fork, spawn, expansion, state and image.
- **Network** (`net_*.dfy`). Route patterns and the host-request protocol.
- **JSON output** (`jq_*.dfy`). Rendering, reading back, and the bound charged for it.
- **Word expansion** (`expand_*.dfy`). Braces and ranges, reading words, arrays, field splitting,
  here-documents.

What the outside world decides is a parameter: what commands, word lists, `$` forms other than `$@`
and `$*`, backquotes and globs yield, how far the creation of a child gets, what a child's setup
charges, whether a response is valid.

## Where the code departs from what it promises

- `break n` and `continue n` are not limited to the enclosing loops. A larger count stays pending
  after the outermost loop and suppresses the commands that follow, where section 2.14 of
  POSIX.1-2017 XCU exits all enclosing loops. `BreakTwoSkipsWhatFollows` shows it;
  `PendingLoopSignalExactly` says exactly when it happens, and `PendingSignalExactly` that returns
  and exits, by contrast, keep their codes through everything.
- Ending or keeping a redirection, rolling back a child before dispatch and opening over a used number
  close descriptors without waking anyone, the first three a whole table at once. `QuietDropStrands`
  is a reader left blocked at end of file; `RestoreFdsExactly`, `CommitRedirectsExactly`,
  `CancelChildExactly` and `InstallOverExactly` say exactly when each of them strands a task.
- The brace scan reads a backslash as an escape inside single quotes, unquoting does not, so a quoted
  text with a backslash can expand to something else. `BackslashBreaksQuoting` shows it;
  `ExpandUndoesQuote` says for every text exactly when it comes back.
- Fields are split out of everything unquoted, not only out of what an expansion produced (section 2.6.5
  of POSIX.1-2017 XCU), and a backslash does not protect the character behind it from that.
  `EscapedBlankSplits` is a word with an escaped blank that becomes two fields; `LiteralExactly` says
  exactly which words without expansions stay as written.
- A separator that is no blank is promised to delimit a field even if it is empty. Behind blanks with no
  field before them it does not. `OrphanLost` shows it; `AssemblesExactly` says for all parts that this is
  the only way in which fields differ from the rule.
- Of a text with pattern characters that falls into several fields only the last is matched against files,
  wherever those characters stand. `PatternMissed` shows it; `PatternsExactly` says what is matched.
- A number range whose end is the largest or smallest 64-bit number repeats it up to the word limit, because
  counting saturates there. `EdgeRepeats` shows it; `RangeExactly` lists every range term by term, and
  `RangeCounts` says exactly when each number comes once.
- Outside quotes, text in front of `$@` becomes a field of its own, where inside quotes it joins the first
  argument. `ArgumentsSpreadExactly` and `ArrayExpands` say what comes out.
- `"$*"` is promised to join with nothing between the arguments when there is no separator; it joins with a
  blank. `StarKeepsBlank` shows it; `StarExactly` says when the promise is kept.
- A stopped machine expands nothing, so here-document lines come out empty and quoted words vanish.
  `HeredocExactly`, `ExpandUndoesQuote` and `ArgumentsUnchanged` carry this as part of their
  condition.

## Model

| member | source | states |
|---|---|---|
| `FrameRefinement.MachineMatchesEvaluator` | src/exec.rs:1563-1828 | for every tree, oracle, ERR handler and stack with room: the frame machine started with `Eval` on the stack comes back to that stack with a given signal, status, flags, errexit state and command trace if and only if the recursive evaluator finishes with exactly these |
| `FrameRefinement.MachineDivergesWithEvaluator` | src/exec.rs:1563-1828 | the machine stays above the stack it started on for ever if and only if the evaluator finishes with no amount of fuel |
| `FrameRefinement.EvaluatorDeterministic` | src/exec.rs:2199-2425 | all finishing runs of the evaluator on one tree and state agree, so the reference answer is unique |
| `ShellMeaning.MachineEnds` | src/exec.rs:736-787 | with room on the stack, the machine started on a tree comes back with a signal and state exactly when the tree's meaning ends so; the laws below say what that meaning is, none of them through the evaluator's own helpers |
| `ShellMeaning.EndsOnce` | src/exec.rs:2199-2425 | a tree's meaning has at most one ending |
| `ShellMeaning.CommandExactly` | src/exec.rs:2240-2267 | a command leaves exactly the status and signal of its outcome (`Done(s)` leaves s), one event in the trace, and a failed one outside conditions runs the ERR handler |
| `ShellMeaning.EmptyExactly` | src/exec.rs:2239-2239 | an empty node leaves status 0 and nothing else |
| `ShellMeaning.GroupExactly` | src/exec.rs:2317-2334 | a group ends as what it holds |
| `ShellMeaning.NotExactly` | src/exec.rs:2302-2307 | `!` ends as its operand with the status inverted and exempt from errexit, and keeps its signal |
| `ShellMeaning.AndExactly` | src/exec.rs:2268-2279 | the right operand runs exactly when the left one succeeds without a pending signal, and then its ending is the whole's; otherwise the left one's is |
| `ShellMeaning.OrExactly` | src/exec.rs:2280-2291 | the same for failure |
| `ShellMeaning.SeqExactly` | src/exec.rs:2308-2316 | a list runs its elements in order up to the first that raises a signal or that errexit makes fatal |
| `ShellMeaning.IfExactly` | src/exec.rs:2335-2352 | an `if` without `elif` runs its condition, then the body exactly when that succeeds, else the `else` part, or leaves status 0 |
| `ShellMeaning.ElifNests` | src/exec.rs:2335-2352 | an `elif` means the rest of the statement inside `else`: every branch is tried, in order |
| `ShellMeaning.WhileExactly` | src/exec.rs:2353-2366 | a loop runs rounds of condition and body while the condition has the wanted outcome; `break` and `continue` are counted down, the status is the last body's or 0 |
| `ShellMeaning.ForExactly` | src/exec.rs:2367-2425 | a `for` binds each word in order and runs the body for it, until a signal leaves the loop |
| `FrameLimits.StepKeepsStack` | src/exec.rs:789-816 | a step takes one frame and keeps all below it; only at the frame limit it gives up the whole stack, and then with status 2 |
| `FrameLimits.TrapNeverNests` | src/exec.rs:1875-1905 | over every run the ERR trap is never started while it runs: its frame is on the stack at most once, exactly while it is being handled |
| `FrameCounters.StepBalanced` | src/exec.rs:1563-1828 | one step of the machine, an overflow included, keeps `cond_depth` and `loop_depth` above their starting values by exactly the condition and `FinishLoop` frames on the stack |
| `FrameCounters.RunBalanced` | src/exec.rs:789-870 | the same after any number of steps of any program under any oracle |
| `FrameCounters.OverflowBalanced` | src/exec.rs:804-870 | aborting on the frame limit empties the stack and gives back exactly what its frames had added to the counters |
| `FrameCounters.FailuresUnderConditionsIgnored` | src/exec.rs:1875-1896 | in every state of every run from depth zero, neither `set -e` nor the ERR trap acts while a condition frame is anywhere on the stack |
| `LoopSignals.PendingSignalExactly` | src/exec.rs:1563-1828 | every whole program ends with exactly the break, continue, return or exit its last event asked for, with that event's own code and the levels left after the loop bodies around it; nothing on the way out changes it, `!` and the ERR trap included, and with none asked for only `set -e` exits |
| `LoopSignals.PendingLoopSignalExactly` | src/commands/builtins.rs:1434-1502 | a whole program ends with `break` or `continue` pending if and only if its last event is such a command whose count exceeds the loop bodies it ran in |
| `LoopSignals.MachineCarriesCodeExactly` | src/exec.rs:1708-1726 | the same for the machine: its returning flag holds a code exactly when the last event was a `return` with that code, and an asked exit keeps its code |
| `LoopSignals.MachineLeavesLoopSignalExactly` | src/exec.rs:1708-1726 | the same for the machine's own break and continue counters when it returns to an empty stack |
| `LoopSignals.BreakTwoSkipsWhatFollows` | src/commands/builtins.rs:1434-1445 | after one loop whose body runs `break 2` the break stays pending and the command after the loop never runs |
| `ShellContinuations.ShellContinuation.Poll` | src/exec.rs:736-787 | polling with a budget leaves object and interpreter exactly where that many steps of the machine lead, and says whether the stack is empty |
| `ShellContinuations.ShellContinuation.Abort` | src/exec.rs:818-870 | the unwinding loop over the frames ends in the state that undoes what each frame held |
| `ShellContinuations.ShellContinuation.Push` | src/exec.rs:789-802 | a frame is accepted exactly below the limit; otherwise everything unwinds with status 2 |
| `ShellContinuations.ShellContinuation.EnsureCapacity` | src/exec.rs:804-816 | room for several frames, or everything unwinds |
| `ShellContinuations.ShellContinuation.EvalStep` | src/exec.rs:2199-2425 | evaluating a node pushes the frames the machine's rule for it prescribes, in place; what those rules come to is said by the laws of `ShellMeaning` |
| `ShellContinuations.ShellContinuation.PrepareItems` | src/exec.rs:1129-1195 | preparing a `for` asks for its words once and enters the loop, or fails, as the machine's rule prescribes |
| `ShellContinuations.ShellContinuation.ConditionStep` | src/exec.rs:1591-1657 | the frames of and-lists, or-lists, `!` and `if` act as the machine's rules |
| `ShellContinuations.ShellContinuation.LoopStep` | src/exec.rs:1563-1727 | the frames of lists and `while`/`until` act as the machine's rules |
| `ShellContinuations.ShellContinuation.ForStep` | src/exec.rs:1728-1780 | the frames of `for` act as the machine's rules |
| `ShellContinuations.ShellContinuation.StatusStep` | src/exec.rs:1875-1905 | status recording, the ERR trap and its end act as the machine's rules |
| `ArithNumbers.WrappingPower` | src/arith.rs:535-546 | for every base and every non-negative exponent the squaring loop yields the true power reduced once to 64 bits |
| `ArithNumbers.ParseConstant` | src/arith.rs:548-584 | the loop that wraps after every digit yields the positional value wrapped once, or the first error, for every text |
| `ArithNumbers.DigitsRoundTrip` | src/arith.rs:560-584 | the positional value of the printed digits of a number is the number, in every base from 2 to 64 |
| `ArithNumbers.BaseRoundTrip` | src/arith.rs:548-584 | reading `base#digits` undoes printing for every non-negative 64-bit number and every base from 2 to 64 |
| `ArithNumbers.DecimalConstant` | src/arith.rs:548-559 | a printed decimal reads back as itself and is never taken for octal |
| `ArithNumbers.PrefixRoundTrip` | src/arith.rs:548-584 | octal with a leading zero and hexadecimal with `0x` or `0X` read back every non-negative 64-bit number |
| `ArithNumbers.CaseIgnored` | src/arith.rs:560-584 | up to base 36 upper-case digits count as lower-case ones |
| `ArithLaws.RingExactly` | src/arith.rs:523-525 | `+`, `-` and `*` of any two 64-bit numbers are the one 64-bit number congruent to the true result |
| `ArithLaws.CongruentOnce` | src/arith.rs:523-525 | a 64-bit number is determined by its remainder modulo 2 to the 64 |
| `ArithLaws.SubtractionUndone` | src/arith.rs:523-524 | subtracting what was added gives back the number, over every wrap-around |
| `ArithLaws.DivisionExactly` | src/arith.rs:526-528 | `/` and `%` fail exactly on zero; otherwise the quotient rounds toward zero, the remainder has the dividend's sign and the two recompose it, the one overflow included |
| `ArithLaws.LeftShiftDoubles` | src/arith.rs:521-521 | `<<` is multiplication by a power of two, wrapped, the count taken modulo 64 |
| `ArithLaws.RightShiftFloors` | src/arith.rs:522-522 | `>>` is division by a power of two rounded down, also for negative numbers |
| `ArithLaws.BitwiseExactly` | src/arith.rs:510-512 | each of the 64 bits of or, exclusive or and `&` is that operation on the operands' bits |
| `ArithLaws.BitsDetermine` | src/arith.rs:510-512 | numbers with the same 64 bits are equal |
| `ArithLaws.ComparisonsExactly` | src/arith.rs:513-518 | each comparison yields 1 exactly when it holds, else 0 |
| `ArithLaws.PowerExactly` | src/arith.rs:529-530 | `**` fails exactly on a negative exponent and otherwise is the true power wrapped once |
| `ArithLaws.UnaryExactly` | src/arith.rs:335-368 | `-`, `!` and `~` are negation modulo 2 to the 64, the test for zero, and the complement of every bit |
| `ArithPrecedence.PrecedenceExactly` | src/arith.rs:245-333 | for every pair of the nineteen binary operators and any operands: without parentheses the tighter one takes the middle operand, of equally tight ones the left one, except that powers group to the right |
| `ArithPrecedence.UnaryBindsTighter` | src/arith.rs:335-368 | a unary operator applies before every binary one |
| `ArithPrecedence.ConditionalExactly` | src/arith.rs:245-264 | `a?b:c` is b exactly when a is not zero, else c |
| `ArithPrecedence.VariableExactly` | src/arith.rs:478-498 | unset or blank a variable is zero, a plain integer is itself, any other text is evaluated one level deeper up to the recursion limit |
| `ArithPrecedence.AssignedReadsBack` | src/arith.rs:478-506 | a variable reads back as the 64-bit number it was assigned, and every other variable keeps its text |
| `ArithOperators.OneOperator` | src/arith.rs:176-197 | the bar, `^`, `&` are found exactly when neither a doubled nor an assigning operator stands there |
| `ArithOperators.EqualityOperator` | src/arith.rs:176-197 | which of `==` and `!=` is found, for every text and cursor |
| `ArithOperators.OrderOperator` | src/arith.rs:176-197 | which of `<=`, `>=`, `<`, `>` is found, for every text and cursor, never the start of a shift |
| `ArithOperators.ShiftOperator` | src/arith.rs:176-197 | a shift is found exactly when no `=` follows it |
| `ArithOperators.AssignmentOperator` | src/arith.rs:176-197 | which assignment operator is found, never the start of `==` |
| `ArithSkip.SkippingIgnoresVariables` | src/arith.rs:214-475 | at every grammar level, for every text, cursor and store, a skipped parse changes no variable and gives the same result over any other store |
| `ArithSkip.SkippingFollowsEvaluation` | src/arith.rs:214-498 | whenever evaluation from a cursor succeeds, the skipped parse succeeds with the same cursor, nesting and assignability |
| `ArithRoundTrip.ParsesRight` | src/arith.rs:214-419 | at every grammar level and in any surrounding text, parsing a tree's text is applying that level's tail to the tree's own value |
| `ArithRoundTrip.EvaluatePrinted` | src/arith.rs:75-103 | for every tree whose text nests within the limit and every store, evaluating the printed text gives the tree's value and final store, or the same error |
| `ArithParser.Parser.SkipSpace` | src/arith.rs:142-150 | the cursor stops at the first non-blank |
| `ArithParser.Parser.Eat` | src/arith.rs:157-172 | a token is consumed exactly when it stands behind the blanks |
| `ArithParser.Parser.BinaryOperator` | src/arith.rs:176-197 | the scan over the candidates finds the first unshadowed one |
| `ArithParser.Parser.Comma` | src/arith.rs:214-220 | the in-place comma parser leaves reply, cursor, nesting and variables as the grammar function of its level says, for every text and store |
| `ArithParser.Parser.Assignment` | src/arith.rs:222-243 | the in-place assignment parser leaves reply, cursor, nesting and variables as the grammar function of its level says, for every text and store |
| `ArithParser.Parser.Conditional` | src/arith.rs:245-264 | the in-place conditional parser leaves reply, cursor, nesting and variables as the grammar function of its level says, for every text and store |
| `ArithParser.Parser.LogicalOr` | src/arith.rs:266-274 | the in-place logical or parser leaves reply, cursor, nesting and variables as the grammar function of its level says, for every text and store |
| `ArithParser.Parser.LogicalAnd` | src/arith.rs:276-284 | the in-place logical and parser leaves reply, cursor, nesting and variables as the grammar function of its level says, for every text and store |
| `ArithParser.Parser.BinaryLevel` | src/arith.rs:287-313 | the in-place left-associative binary parser leaves reply, cursor, nesting and variables as the grammar function of its level says, for every text and store |
| `ArithParser.Parser.Power` | src/arith.rs:316-333 | the in-place power parser leaves reply, cursor, nesting and variables as the grammar function of its level says, for every text and store |
| `ArithParser.Parser.Unary` | src/arith.rs:335-368 | the in-place unary parser leaves reply, cursor, nesting and variables as the grammar function of its level says, for every text and store |
| `ArithParser.Parser.Postfix` | src/arith.rs:380-394 | the in-place postfix parser leaves reply, cursor, nesting and variables as the grammar function of its level says, for every text and store |
| `ArithParser.Parser.Primary` | src/arith.rs:396-419 | the in-place primary parser leaves reply, cursor, nesting and variables as the grammar function of its level says, for every text and store |
| `ArithParser.Parser.Variable` | src/arith.rs:435-475 | the in-place variable parser leaves reply, cursor, nesting and variables as the grammar function of its level says, for every text and store |
| `ArithParser.Parser.Value` | src/arith.rs:478-498 | a variable's value: unset and blank are zero, plain integers are themselves, anything else is evaluated one level deeper over the same variables |
| `ArithParser.EvaluateAtDepth` | src/arith.rs:79-103 | a whole expression evaluates as the grammar says, with trailing text an error |
| `DescriptorFork.StepSound` | src/descriptors.rs:417-569 | every operation keeps the invariant: counts equal the table entries and machine handles naming a description, nothing dangles, pipe counts equal live ends, close-on-exec flags name open descriptors, all limits hold, no locks conflict |
| `DescriptorFork.RunSound` | src/descriptors.rs:417-569 | the invariant holds after every run of operations over any number of process tables |
| `DescriptorFork.EveryRunSound` | src/descriptors.rs:417-569 | the same from the machine's start, with nothing asked of the run |
| `DescriptorFork.ForkExactly` | src/descriptors.rs:1106-1118 | a fork succeeds exactly when every count can hold its new references; it then adds one per entry, and otherwise leaves the arena exactly as it was |
| `DescriptorFork.CloseAllUndoesFork` | src/descriptors.rs:1120-1126 | closing the table a fork returned gives back exactly what the fork took |
| `DescriptorRuns.InstallSound` | src/descriptors.rs:1043-1061 | installing over a free or used number keeps the invariant, on success and on every refusal |
| `DescriptorRuns.OpenPipeExactly` | src/descriptors.rs:417-456 | opening a pipe adds the pipe and both ends, or only uses up identities |
| `DescriptorRuns.DropSound` | src/descriptors.rs:519-569 | removing a description keeps pipe counts equal to live ends and removes a pipe exactly with its last end |
| `DescriptorRuns.LockSound` | src/descriptors.rs:577-611 | changing a lock never leaves two conflicting locks on one inode |
| `DescriptorObjects.DescriptorArena.AppendInput` | src/descriptors.rs:297-313 | in place: the host's bytes go behind the stream's, or an error changes nothing; the new arena is the value operation's |
| `DescriptorObjects.DescriptorArena.CloseInput` | src/descriptors.rs:316-326 | in place: the stream is closed; the new arena is the value operation's |
| `DescriptorObjects.DescriptorArena.DrainCapture` | src/descriptors.rs:769-781 | in place: the host takes what it had not taken; the new arena is the value operation's |
| `DescriptorObjects.DescriptorArena.TakeFileLockChanges` | src/descriptors.rs:613-615 | in place: the wake flag is read and cleared |
| `DescriptorStreams.PipeIsAQueue` | src/descriptors.rs:688-750 | over every run the bytes delivered by a pipe are a prefix of the bytes it held and accepted, and while it lives the rest is exactly its buffer |
| `DescriptorStreams.GoneForGood` | src/descriptors.rs:430-434 | a pipe that is gone never comes back and moves nothing more |
| `DescriptorStreams.EndOfFileExactly` | src/descriptors.rs:688-698 | a read of at least one byte sees the end exactly when the buffer is empty and no live description is the writing end |
| `DescriptorStreams.ReadinessForetells` | src/descriptors.rs:856-907 | readiness of input streams and pipes says exactly whether the operation blocks, on what, and how many bytes it moves |
| `DescriptorCapture.CaptureKeepsOrder` | src/descriptors.rs:703-781 | over every run a capture holds what it held followed by every accepted write in order, within its limit, and the host gets each byte once and in order |
| `DescriptorCapture.InputKeepsOrder` | src/descriptors.rs:297-326 | over every run the bytes an input stream handed out followed by its unread rest are the bytes that were unread followed by the bytes fed; once closed it takes nothing more |
| `DescriptorCapture.InputReadExactly` | src/descriptors.rs:645-698 | a read hands out as much as was asked for and is there; with nothing there it ends a closed stream and blocks on an open one |
| `DescriptorCapture.CaptureWriteExactly` | src/descriptors.rs:703-720 | a capture takes a whole write exactly when it stays within its limit |
| `DescriptorCapture.AccessExactly` | src/descriptors.rs:645-752 | devices move whatever is asked, the zero device as many zero bytes; what a description is not open for is refused, and nothing changes |
| `DescriptorTables.InstallExactly` | src/descriptors.rs:1043-1061 | which installs succeed; one changes that number alone and clears its flag |
| `DescriptorTables.DuplicateExactly` | src/descriptors.rs:1063-1074 | a duplicate succeeds exactly for an open source and, unless it is the target itself, a valid target with room and a count that can grow; both numbers then name one description, and no other number changes |
| `DescriptorTables.CloseExactly` | src/descriptors.rs:1099-1103 | closing succeeds exactly for an open number and takes that number and its flag alone |
| `DescriptorTables.ExecExactly` | src/descriptors.rs:1093-1097 | exec keeps exactly the unflagged numbers, each as it was |
| `DescriptorTables.FlagExactly` | src/descriptors.rs:1076-1091 | flagging changes that flag alone and refuses unused numbers |
| `DescriptorTables.LockExactly` | src/descriptors.rs:577-627 | a lock is granted exactly when it is held already or every other lock on the inode is shared and so is this one; the lock held before is given up either way, and waiters are told exactly then |
| `DescriptorTables.UnlockExactly` | src/descriptors.rs:577-611 | unlocking always succeeds and gives up that lock alone |
| `DescriptorLocks.StepAccounted` | src/descriptors.rs:537-540 | every operation either keeps every lock, or raises the wake flag and advances the generation by the number of locks it released |
| `DescriptorLocks.GrantFollowsRelease` | src/descriptors.rs:577-627 | if an obstructed request is granted after a run, some step of the run raised the wake flag and changed the generation |
| `DescriptorLocks.RefusedThenGranted` | src/descriptors.rs:577-627 | the same for a request that was made and refused |
| `DescriptorObjects.DescriptorArena.Allocate` | src/descriptors.rs:459-479 | in place: allocating uses the next identity and starts unreferenced, or is refused at a limit; the new arena is the value operation's |
| `DescriptorObjects.DescriptorArena.OpenPipe` | src/descriptors.rs:417-457 | in place: the pipe and its ends, with the roll back of every refused part; the new arena is the value operation's |
| `DescriptorObjects.DescriptorArena.Retain` | src/descriptors.rs:502-512 | in place: one more reference, or an error that changes nothing; the new arena is the value operation's |
| `DescriptorObjects.DescriptorArena.Release` | src/descriptors.rs:519-569 | in place: one reference less; the last one removes description, lock and pipe end; the new arena is the value operation's |
| `DescriptorObjects.DescriptorArena.DiscardUnreferenced` | src/descriptors.rs:486-500 | in place: only an unowned description is removed; the new arena is the value operation's |
| `DescriptorObjects.DescriptorArena.FileLock` | src/descriptors.rs:577-610 | in place: the old lock goes first; the new one is refused exactly on a conflict; the new arena is the value operation's |
| `DescriptorObjects.DescriptorArena.Read` | src/descriptors.rs:645-701 | in place: reading each kind of description; the new arena is the value operation's |
| `DescriptorObjects.DescriptorArena.Write` | src/descriptors.rs:703-758 | in place: writing each kind of description; the new arena is the value operation's |
| `DescriptorObjects.FdTable.Install` | src/descriptors.rs:1043-1061 | in place: retain, insert, release what was there; table and arena are the value operation's |
| `DescriptorObjects.FdTable.Duplicate` | src/descriptors.rs:1063-1074 | in place: a number duplicated onto itself changes nothing; table and arena are the value operation's |
| `DescriptorObjects.FdTable.Close` | src/descriptors.rs:1099-1103 | in place: entry and flag go, then the reference; table and arena are the value operation's |
| `DescriptorObjects.FdTable.CloseForExec` | src/descriptors.rs:1093-1097 | in place: the loop over flagged numbers closes exactly those; table and arena are the value operation's |
| `DescriptorObjects.FdTable.Fork` | src/descriptors.rs:1106-1118 | in place: the retaining loop with its roll back; table and arena are the value operation's |
| `DescriptorObjects.FdTable.CloseAll` | src/descriptors.rs:1120-1126 | in place: the loop releases every entry; table and arena are the value operation's |
| `Scheduling.WakeWaitersExactly` | src/scheduler.rs:269-288 | waking a condition leaves no task waiting for it, stopped ones included, and touches no other task |
| `Scheduling.DispatchOrdered` | src/scheduler.rs:334-352 | dispatch always runs the first runnable task, and queues and states stay in agreement |
| `Scheduling.WakeOrdered` | src/scheduler.rs:202-223 | waking a task keeps the queues in agreement with the states |
| `Scheduling.StopOrdered` | src/scheduler.rs:229-248 | stopping keeps the condition a task waits for, and the queues in agreement |
| `SchedulerOrder.WakeWaitersInOrder` | src/scheduler.rs:269-288 | waking a condition makes its waiters runnable, or runnable once continued, and nobody else; the runnable stay ahead and the woken follow in the order in which they blocked |
| `SchedulerOrder.StoppedAndContinued` | src/scheduler.rs:229-267 | stopping and continuing a task restores its state, a running one has to queue again, and a wakeup in between is kept |
| `SchedulerOrder.StopExactly` | src/scheduler.rs:229-248 | a task is stopped with what it waits for, and no other task changes |
| `SchedulerOrder.ResumeExactly` | src/scheduler.rs:251-267 | a stopped task takes up what it was stopped in, and no other task changes |
| `SchedulerOrder.ReapExactly` | src/scheduler.rs:383-393 | exactly an exited task is forgotten |
| `SchedulerOrder.StoppedStays` | src/scheduler.rs:225-248 | neither dispatch nor a wakeup runs a stopped task |
| `CallQueue.QueueExactly` | src/scheduler.rs:136-352 | in every call of the machine: dispatch takes the first of the queue, stopping, parking and the host's choice take out that task, everything else only appends; only dispatch and the host's choice put a task on the processor |
| `CallQueue.FirstComeFirstServed` | src/scheduler.rs:136-352 | over every run: while a task waits in the queue, no task that was not ahead of it gets to run, be it behind, blocked, stopped or not yet created, unless the host chooses it by number |
| `CallQueue.RunsInTime` | src/scheduler.rs:334-352 | over every run: a queued task that is neither stopped nor parked runs by the time one more task has been dispatched than were ahead of it |
| `CallQueue.TransferBlocksExactly` | src/interp.rs:2234-2369 | a read or write blocks exactly when nothing can be moved now but may be later, on exactly that condition, and changes nothing else; otherwise the task runs on |
| `CallQueue.PollBlocksExactly` | src/commands/wasm.rs:2172-2302 | a poll blocks exactly when every descriptor it names is open and stuck, until any of their conditions holds |
| `CallQueue.OthersOnlyWoken` | src/interp.rs:2234-2400 | whatever the running task or the host does to descriptors, any other task keeps its state or was waiting for a descriptor condition and is woken |
| `CallQueue.LeavesExactly` | src/scheduler.rs:179-200 | what exit, yield and waiting make of the running task |
| `CallQueue.HostActsExactly` | src/scheduler.rs:149-177 | parking and the host's choice concern just the tasks of the queue |
| `CallQueue.SchedulingIs` | src/scheduler.rs:202-393 | job control, wakeups, reaping and dispatch touch the scheduler alone, no descriptor |
| `CallQueue.ForkExactly` | src/interp.rs:1583-1655 | a fork succeeds exactly when number, table and task limit allow it; then the child has the parent's table and is last in the queue, otherwise no task and no table changes |
| `CallOrder.CallIsEvents` | src/interp.rs:2234-2400 | each call does to the descriptors exactly what its descriptor events do |
| `CallOrder.CallsAreEvents` | src/interp.rs:2234-2400 | every interleaving of calls is a run of descriptor events, so counts, locks and the order of streams hold of the machine however its tasks are scheduled |
| `Wakeups.CallAwake` | src/interp.rs:2234-2273 | every descriptor call, host input and scheduler move keeps: no task waits for a descriptor condition that holds |
| `Wakeups.NoLostWakeup` | src/interp.rs:2309-2400 | the same over every interleaving of reads, writes, polls, closes, duplications, pipes, forks, execs, exits, host input and job control |
| `Wakeups.ReadAwake` | src/interp.rs:2234-2273 | a read wakes exactly the condition it can make true, or blocks on one that does not hold |
| `Wakeups.WriteAwake` | src/interp.rs:2309-2369 | a write wakes exactly the condition it can make true, or blocks on one that does not hold |
| `Wakeups.ExecAwake` | src/interp.rs:1360-1385 | closing flagged descriptors on exec strands no waiter |
| `Wakeups.ExitAwake` | src/interp.rs:1836-1917 | closing every descriptor at exit strands no waiter |
| `Wakeups.ForkAwake` | src/interp.rs:1583-1655 | a child that is created, or refused after its descriptors were copied, strands no waiter |
| `QuietClosing.QuietDropExactly` | src/descriptors.rs:1120-1126 | dropping any list of references without waking anyone strands a task exactly when some pipe end loses all its references in that drop, the other end keeps one, and a task waits for that end to close |
| `QuietClosing.RestoreFdsExactly` | src/exec.rs:361-365 | ending a redirection, which closes the whole table and puts the saved one back, strands a task exactly under that condition on the closed table |
| `QuietClosing.CommitRedirectsExactly` | src/exec.rs:3396-3399 | keeping a redirection, which closes the whole saved table, strands a task exactly under that condition on the saved table |
| `QuietClosing.CancelChildExactly` | src/interp.rs:2156-2172 | rolling back a child before dispatch strands a task exactly under that condition on the child's table |
| `QuietClosing.InstallOverExactly` | src/interp.rs:2189-2203 | opening over a used number strands a task exactly when the description that stood there was the last of its pipe end, the other end lives and a task waits for it |
| `QuietClosing.ReleaseAllRemains` | src/descriptors.rs:1120-1126 | what is left after a whole table is closed: each description with the references that were not in it, each pipe with its remaining ends |
| `Wakeups.NoneEverStranded` | src/interp.rs:2309-2400 | from the machine's start, over every interleaving, no task waits for a descriptor condition that holds |
| `QuietClosing.QuietDropStrands` | src/exec.rs:361-365 | a reader waiting on a pipe whose writer has n references: dropping k of them at once strands it exactly when k is n, for every n and k |
| `MachineObject.TaskScheduler.WakeWaiters` | src/scheduler.rs:269-288 | the collecting and waking loops in place |
| `MachineObject.TaskScheduler.Wake` | src/scheduler.rs:202-223 | in place, for blocked and for stopped tasks |
| `MachineObject.TaskScheduler.YieldCurrent` | src/scheduler.rs:179-184 | in place: the running task goes to the end of the queue |
| `MachineObject.TaskScheduler.Stop` | src/scheduler.rs:229-248 | in place, for queued, running and blocked tasks |
| `MachineObject.TaskScheduler.ContinueTask` | src/scheduler.rs:251-267 | in place, for stopped runnable and stopped blocked tasks |
| `MachineObject.TaskScheduler.ParkRunnable` | src/scheduler.rs:150-162 | in place: a queued task waits for its host |
| `MachineObject.TaskScheduler.DispatchPid` | src/scheduler.rs:165-176 | in place: the host's choice runs ahead of the queue |
| `MachineObject.Machine.ReadFd` | src/interp.rs:2234-2273 | in place: result, arena, scheduler and table are those of the run model's step, so no task is left waiting for a condition that holds |
| `MachineObject.Machine.WriteFd` | src/interp.rs:2358-2369 | in place: result, arena, scheduler and table are those of the run model's step, and no task is stranded |
| `MachineObject.Machine.CloseFd` | src/syscalls.rs:1461-1472 | in place: the descriptor closes and the waiters of its pipe end wake, as the run model's step does, and no task is stranded |
| `MachineObject.Machine.ResetForExec` | src/interp.rs:1374-1385 | in place: flagged descriptors close, then the waiters of the pipe ends among them wake, and no task is stranded |
| `MachineObject.Machine.FinishTask` | src/interp.rs:1858-1893 | in place: all descriptors close, the waiters of their pipe ends wake, the task ends, and no task is stranded |
| `TimelineRuns.ApplyKept` | src/clock.rs:249-403 | every operation keeps: increasing firing order, nothing early, every accepted event in exactly one place, pending plus ready within the limit |
| `TimelineRuns.RunKept` | src/clock.rs:249-370 | the same over every run |
| `TimelineRuns.EveryRunKept` | src/clock.rs:249-370 | the same from a new timeline, with nothing asked of the run |
| `Timelines.HopsAreOneJump` | src/clock.rs:321-350 | advancing in two hops leaves the same timeline as one jump |
| `Timelines.ManyHopsAreOneJump` | src/clock.rs:321-350 | the same for any number of hops |
| `Timelines.DueInOrder` | src/clock.rs:329-348 | what fires at once is strictly increasing in deadline and sequence |
| `Timelines.DueExactly` | src/clock.rs:329-338 | an event fires exactly if it is pending and due |
| `TimelineOwners.CancelTaskExactly` | src/clock.rs:290-318 | cancelling a task removes its wakes, deadlines and signals, pending or fired, and nothing else: other pending events keep time and kind, other fired ones their order |
| `TimelineOwners.CancelledStaysSilent` | src/clock.rs:290-318 | after a task is cancelled, in every run that schedules nothing for it, none of its events fires and none is popped |
| `TimelineOwners.FiredAsScheduled` | src/clock.rs:249-370 | over every run each event fires, and is popped, with the kind it was scheduled with under its identity of instant and sequence number |
| `TimelineOwners.ScheduleExactly` | src/clock.rs:249-281 | scheduling succeeds exactly for an instant not past, within the horizon, below the event limit and while sequence numbers last; then just that event is added |
| `TimelineOwners.PopExactly` | src/clock.rs:368-370 | fired events come out first in, first out |
| `TimelineOwners.WakeExactly` | src/clock.rs:239-247 | a wake is pending for its task at the end of the duration, which counts as slept |
| `TimelineOwners.BlockExactly` | src/clock.rs:379-403 | a block is interrupted exactly when a deadline of the task is pending within it, by the earliest one and at its instant; otherwise the whole duration passes |
| `TimelineObject.VirtualTimeline.Schedule` | src/clock.rs:249-281 | in place, with every refusal: rewinding, too many events, beyond the horizon, sequence exhausted |
| `TimelineObject.VirtualTimeline.CancelTaskEvents` | src/clock.rs:290-318 | the loops remove exactly the task's pending and fired events, whichever of them belong to it by kind, and count the pending ones |
| `TimelineObject.VirtualTimeline.Advance` | src/clock.rs:321-350 | the firing loop fires exactly what is due, smallest first |
| `TimelineObject.VirtualTimeline.AdvanceNext` | src/clock.rs:361-366 | the jump to the next deadline, or nothing when none is pending |
| `TimelineObject.VirtualTimeline.BlockTaskFor` | src/clock.rs:379-403 | the loop ends, interrupted by the task's least deadline within the duration with the clock at that deadline, or completed with the clock at the end; the wake is then in neither queue and every other due event is ready in order |
| `TimelineObject.WakeComes` | src/clock.rs:389-392 | when the wake comes up in a batch, no deadline of the task was due and the state is the completed one |
| `TimelineObject.DeadlineComes` | src/clock.rs:393-398 | the deadline found first in a batch is the least one due, and the state is the interrupted one |
| `MemoryLedger.TakeConserves` | src/interp.rs:958-1152 | every step keeps memory in use minus the reservations of live contexts, and that difference non-negative |
| `MemoryLedger.RunConserves` | src/interp.rs:2111-2172 | the same over every run of forks, spawns, charges, rollbacks and exits, so saturation never hides a loss |
| `MemoryLedger.BackToStart` | src/resources.rs:154-190 | a run after which contexts hold what they held before leaves memory in use exactly as it was |
| `MemoryLedger.SpawnConserves` | src/interp.rs:958-1152 | a spawn conserves, and one that fails at any stage leaves contexts and memory in use exactly as they were |
| `MemoryLedger.CreateConserves` | src/interp.rs:1575-1655 | a child's reservation is made exactly once or given back on every failing path |
| `MemoryLedger.EndConserves` | src/interp.rs:1836-1917 | ending a context gives back exactly its four reservations |
| `MemoryLedger.DoBalanced` | src/expand.rs:138-148 | expansion, state and image charges and their releases move memory in use and the context's reservations by the same amount |
| `MemoryLedger.StopSticks` | src/resources.rs:135-170 | a stop reason, once set, stays, and memory in use only falls from then on |
| `LedgerExact.ReserveExactly` | src/resources.rs:154-170 | a reservation is accepted exactly when the machine runs and has room, and then taken whole |
| `LedgerExact.RefusalStops` | src/resources.rs:154-170 | a refused reservation takes nothing and stops the machine for memory |
| `LedgerExact.ChargeCpuExactly` | src/resources.rs:135-152 | work is accepted exactly when the machine runs and the work left covers it |
| `LedgerExact.ChargeOutputExactly` | src/resources.rs:192-208 | output is accepted exactly when the machine runs and the output left covers it |
| `LedgerExact.WorkExactly` | src/resources.rs:135-152 | work done in a run is charged to the machine and changes no context |
| `LedgerExact.ExpandExactly` | src/expand.rs:138-148 | an expansion charge is accepted exactly when the machine runs and has room; then memory in use and the context's charge both grow by its bytes, otherwise neither does and the machine is stopped for memory |
| `LedgerExact.EndExpansionExactly` | src/interp.rs:2111-2114 | the end of an expansion gives back exactly what it had charged |
| `LedgerExact.SyncExactly` | src/interp.rs:2123-2138 | a sync leaves exactly the growth of the state reserved, unless there is no room for it |
| `LedgerExact.GrowSyncs` | src/interp.rs:2116-2138 | after the state changed its size, a sync leaves exactly its growth over the baseline reserved, or the old reservation when there is no room |
| `LedgerExact.LoadExactly` | src/commands/wasm/posix_exec.rs:293-323 | loading needs room for the new image beside the old; then exactly its bytes replace the old charge, and a failed load leaves memory and charge as they were |
| `LedgerExact.EndImageExactly` | src/interp.rs:2141-2148 | the end of an image syncs the state and gives back exactly the image's charge |
| `LedgerExact.CreateExactly` | src/interp.rs:1575-1655 | a child is born exactly when its state is within the fork limit, there is room and nothing fails on the way; then it holds exactly its fork bytes |
| `LedgerExact.EndExactly` | src/interp.rs:2156-2172 | ending a context gives back exactly its four reservations |
| `LedgerExact.SpawnExactly` | src/interp.rs:958-1152 | a spawn that succeeds leaves other contexts as they were, and memory in use grows by exactly what the child holds |
| `LedgerObject.Meter.Reserve` | src/resources.rs:154-170 | in place: reserving within the limit, or stopping for good |
| `LedgerObject.Meter.Release` | src/resources.rs:188-190 | in place: release with saturation |
| `LedgerObject.Meter.Charge` | src/resources.rs:135-152 | in place: work within the limit, or stopping for good |
| `LedgerObject.Meter.ChargeOutput` | src/resources.rs:192-208 | in place: output within the limit, or stopping for good |
| `LedgerObject.Interpreter.ChargeExpansion` | src/expand.rs:138-148 | in place: the charge is accepted exactly when the machine runs and has room, then memory in use and the context's charge grow by its bytes, otherwise neither does; from a solvent ledger memory in use minus the reservations of live contexts stays the same and covers them |
| `LedgerObject.Interpreter.ReleaseExpansionMemory` | src/interp.rs:2111-2114 | in place: the expansion charge given back; from a solvent ledger memory in use minus the reservations of live contexts stays the same and covers them |
| `LedgerObject.Interpreter.SyncShellMemory` | src/interp.rs:2123-2138 | in place: state growth reserved or given back, and accepted exactly when there is room for it; from a solvent ledger memory in use minus the reservations of live contexts stays the same and covers them |
| `LedgerObject.Interpreter.ReleaseExecMetadata` | src/interp.rs:2141-2148 | in place: the image charge given back after a sync; from a solvent ledger memory in use minus the reservations of live contexts stays the same and covers them |
| `LedgerObject.Interpreter.LoadProgram` | src/commands/wasm/posix_exec.rs:293-323 | in place: a new image's charge replaces the old one, or is given back, and the load succeeds exactly when there is room for it and it can be loaded; from a solvent ledger memory in use minus the reservations of live contexts stays the same and covers them |
| `LedgerObject.Interpreter.CreateChild` | src/interp.rs:1575-1655 | in place: the child's reservation on every path, and no new context on a refused one; from a solvent ledger memory in use minus the reservations of live contexts stays the same and covers them |
| `LedgerObject.Interpreter.EndChild` | src/interp.rs:2156-2172 | in place: the end of a finished or cancelled context; from a solvent ledger memory in use minus the reservations of live contexts stays the same and covers them |
| `LedgerObject.Interpreter.SetUp` | src/interp.rs:958-1152 | in place: the loop over a child's setup charges keeps the same balance |
| `LedgerObject.Interpreter.SpawnPosixChild` | src/interp.rs:958-1152 | in place: launch and snapshot memory, setup and rollback keep the same balance, and a spawn that fails at any stage leaves contexts and memory in use exactly as they were |
| `RouteGlob.PatternMatches` | src/net.rs:609-638 | for every pattern and text the greedy matcher answers true exactly when some choice of text for each star turns the pattern into the text |
| `RouteGlob.GreedySuffices` | src/net.rs:618-636 | taking each middle part at its first occurrence never loses a match |
| `RouteGlob.PartsDenote` | src/net.rs:616-617 | a pattern's meaning is that of its parts between stars |
| `HostRequests.MoveOrderly` | src/net.rs:257-380 | every move keeps the record in order |
| `HostRequests.RunOrderly` | src/net.rs:257-380 | in every run identities are never reused, each request is delivered, completed and received at most once and in that order, only its own process receives the response, and at most sixteen are open |
| `HostRequests.EveryRunOrderly` | src/net.rs:257-380 | the same from a new network, with nothing asked of the run |
| `HostRequests.AskIsFreshOrIdle` | src/net.rs:298-332 | a new request gets an identity no request had; asking again while it is open changes nothing, the log included |
| `HostRequests.AskedByOne` | src/net.rs:357-361 | an open identity belongs to one process, so completion has one addressee |
| `HostAnswers.RunTruthful` | src/net.rs:257-380 | over every run each slot holds exactly what was asked and what was answered under its identity, and its line of the log names that response's status |
| `HostAnswers.ReceivesItsAnswer` | src/net.rs:257-332 | after every run: an acceptable POST gets a response exactly when that very request was asked and completed, and it is the response the host completed it with; the slot is then free and no other changes; any other method gets status 405 |
| `HostAnswers.CompletesExactly` | src/net.rs:347-370 | after every run: a completion is accepted exactly for a valid response to an open, delivered, unanswered request, and names the process that asked |
| `HostAnswers.DrainsWhatWasAsked` | src/net.rs:335-344 | after every run: the host gets exactly the open undelivered requests, each with the content that was asked |
| `HostAnswers.GoneForGood` | src/net.rs:372-380 | over every run a request that was given up is never delivered and no completion of it is accepted |
| `HostAnswers.KeepExactly` | src/net.rs:372-375 | keeping the live processes gives up exactly the others' requests, for good; the live ones' stay as they are |
| `HostAnswers.DiscardExactly` | src/net.rs:377-380 | discarding gives up every request, for good |
| `HostAnswers.LogExactly` | src/net.rs:257-332 | every move: log lines and dropped lines together count the requests, lines keep place and content, and a request that is not a POST is logged with status 405 |
| `HostRequests.VirtualNet.HostToolRequest` | src/net.rs:257-332 | in place: queue, resume or refuse |
| `HostRequests.VirtualNet.TakeHostRequests` | src/net.rs:335-344 | the loop returns exactly the undelivered requests with their contents, in process order, and marks them |
| `HostRequests.VirtualNet.CompleteHostRequest` | src/net.rs:347-370 | in place: the search completes exactly a delivered, unanswered request with the response given |
| `HostRequests.VirtualNet.DiscardHostRequests` | src/net.rs:378-380 | in place: no request stays |
| `HostRequests.VirtualNet.RetainHostRequests` | src/net.rs:373-375 | in place: only requests of live processes stay |
| `JsonRender.BoundCovers` | src/jqcmd.rs:301-338 | for every value, indent and depth the bound is at least the length of the compact or pretty rendering, or it has saturated |
| `JsonRender.BoundIsExact` | src/jqcmd.rs:301-338 | the saturating computation is the exact one cut off at the largest 64-bit number, at every depth |
| `JsonRender.RenderFits` | src/jqcmd.rs:301-338 | the exact bound covers the rendering |
| `JsonRender.EscapesFit` | src/jqcmd.rs:306-306 | an escaped string is at most six times its bytes |
| `JsonRead.ReadUndoesRender` | src/jqcmd.rs:280-292 | a reader by the grammar of RFC 8259 recovers every value from its text, compact or at any indent, whatever follows it |
| `JsonEmit.EmittedExactly` | src/jqcmd.rs:269-292 | a raw string is emitted byte by byte with a newline; every other value reads back from what is emitted, with just the newline left |
| `JsonEmit.Emit` | src/jqcmd.rs:257-299 | a value is emitted exactly when the output, memory and work left cover its bound; then the rendering is written, within what was reserved and charged; otherwise nothing is written and the machine is stopped for the first budget that did not suffice |
| `QuoteRoundTrip.ExpandUndoesQuote` | src/corpus.rs:699-701 | for every text, state and separators: expanding its quoted form gives it back as one field if and only if the machine runs, no single quote of it separates fields, and the brace scan does not take a brace inside it for one of the shell that has alternatives |
| `QuoteRoundTrip.ExpandQuoted` | src/expand.rs:339-407 | the fields of a quoted text: none when stopped; unless it is misread, its pieces when the quote separates, otherwise the text |
| `QuoteRoundTrip.MisreadNeverReturns` | src/expand.rs:194-262 | a misread text never comes back: the first field holds fewer braces than the text, however deep the expansion nests |
| `QuoteRoundTrip.FirstWord` | src/expand.rs:194-262 | the first word of a quoted text is again a quoted text, with fewer braces when it was misread |
| `QuoteRoundTrip.FirstAlternative` | src/expand.rs:264-316 | the first alternative of a brace body cut out of a quoted text is itself part of a quoted text, for comma lists, number ranges and character ranges |
| `QuoteRoundTrip.MisreadOnly` | src/expand.rs:198-225 | only a text that holds a backslash and a brace is ever misread, so the round trip holds for every text without backslashes |
| `QuoteRoundTrip.BackslashBreaksQuoting` | src/expand.rs:198-225 | a quoted text holding a backslash that comes back as two fields, because the brace scan reads an escape where unquoting does not |
| `ArgumentPassing.ArrayExpands` | src/expand.rs:562-591 | an array form in double quotes between two texts yields each element as one field whatever it holds, with the texts at the outer ends, and no field for a lone empty array |
| `ArgumentPassing.ArgumentsUnchanged` | src/expand.rs:640-649 | `"$@"` passes the positional arguments on unchanged for every separator, and a stopped machine passes none |
| `BraceExpansion.BracesBounded` | src/expand.rs:191-262 | whatever a word holds, brace expansion yields at least one word and at most 1024 |
| `BraceExpansion.NumbersAt` | src/expand.rs:277-298 | term by term, a number range runs from its start by its step, held inside 64 bits, exactly as far as its end or 1024 values |
| `BracePatterns.PatternExactly` | src/expand.rs:191-262 | every nested comma pattern of at most eight lists inside or behind one another expands to the product of its alternatives in written order, or to the first 1024 words of it; at depth eight nothing is expanded |
| `BracePatterns.PatternsExpand` | src/expand.rs:191-337 | the same behind any plain text and at any depth |
| `BracePatterns.AlternativesAre` | src/expand.rs:318-337 | the split at outer commas finds exactly the alternatives of a nested pattern |
| `BraceRanges.RangeExactly` | src/expand.rs:268-298 | a range of two written numbers counts from the first to the second, at most 1024 of them, each filled to the wider end's digits; nothing when the distance exceeds 64 bits; an end at the edge of 64 bits is repeated up to the limit |
| `BraceRanges.RangeCounts` | src/expand.rs:285-297 | a range of at most 1024 numbers lists each once if and only if its end is not the last 64-bit number in its direction, or is the 1024th |
| `BraceRanges.EdgeRepeats` | src/expand.rs:285-297 | the range from the largest 64-bit number to itself lists it 1024 times |
| `BraceRanges.StepExactly` | src/expand.rs:268-298 | with a written step: term by term from the first by the step as far as the second, if the step leads there |
| `BraceRanges.LabelExactly` | src/expand.rs:288-294 | a listed number reads back as itself and is as wide as asked or as it must be |
| `BraceRanges.LettersExactly` | src/expand.rs:299-314 | a range of two characters lists every character between them, in order, at most 1024 |
| `WordReading.WordsRead` | src/expand.rs:409-626 | a word written from any pieces (plain and escaped characters, single quotes, double-quoted strings with escapes, forms and backquotes inside, `$` forms, backquotes), also behind a tilde, is read as exactly the parts of those pieces |
| `WordReading.WordsExpand` | src/expand.rs:159-166 | without a brace list such a word expands to the fields of its pieces |
| `FieldSplitting.AssemblesExactly` | src/expand.rs:339-389 | for any parts: the fields are those of the rule (blanks collapse and trim, every other separator ends a field, quoted text never separates, array elements stand apart) if and only if no separator that is no blank stands behind blanks with no field before them |
| `FieldSplitting.SplitsExactly` | src/expand.rs:339-407 | the same of the whole expansion when nothing may be a pattern |
| `WordReading.VariableSplitsExactly` | src/expand.rs:339-407 | the same of a word that is one `$` form, for its value |
| `WordReading.LiteralExactly` | src/expand.rs:439-449 | a word of plain and escaped characters is one field, as written, if and only if none of them is a separator |
| `WordReading.EscapedBlankSplits` | src/expand.rs:442-449 | a word with an escaped blank that comes out as two fields |
| `FieldLayout.BlanksSplit` | src/expand.rs:361-371 | when all separators are blanks, the fields are the longest runs of quoted text and other characters: laid out with blanks around them they give what was split, and no other words do |
| `FieldLayout.OrphanLost` | src/expand.rs:372-378 | a text with two separators and a blank between them: the rule has two empty fields, the code one |
| `FieldLayout.PatternsExactly` | src/expand.rs:384-407 | of the fields of an unquoted text with pattern characters only the last is matched against files, and none when the text ends with a separator |
| `FieldLayout.PatternMissed` | src/expand.rs:384-407 | a pattern in the first of two fields is not matched against files, the field behind it is |
| `UnquotedArrays.ArgumentsSpreadExactly` | src/expand.rs:472-484 | `$@` outside quotes behind some text, where blanks separate: the text and every argument are a field each, in order, if and only if none of them is empty or holds a separator |
| `ArgumentPassing.StarJoins` | src/expand.rs:639-646 | `"$*"` is one field, the arguments joined by the first separator, or by a blank when there is none |
| `ArgumentPassing.StarKeepsBlank` | src/expand.rs:639-646 | two arguments and no separator: a blank stands between them |
| `ArgumentPassing.StarExactly` | src/expand.rs:639-646 | it joins as promised (with nothing when there is no separator) if and only if there is a separator or at most one argument |
| `ExpansionLaws.HeredocExactly` | src/exec.rs:3886-3905 | a body without `$` and backquote expands to itself exactly when the machine runs or the body holds only line ends |
| `ExpansionLaws.HeredocIsItself` | src/exec.rs:3886-3905 | on a running machine a body without `$` and backquote expands to itself |
| `ExpansionLaws.EscapedOnce` | src/exec.rs:3901-3905 | the two replacements, one after the other, escape each character exactly once |
| `ExpansionLaws.DoubleUndoesEscape` | src/expand.rs:542-562 | unquoting double-quoted text undoes the escaping, inside any string |
| `ExpansionLaws.NoBraceInside` | src/expand.rs:198-225 | the brace scan passes over text escaped for double quotes |
| `ExpansionLaws.QuotedParts` | src/expand.rs:439-465 | a quoted text is read as alternating quoted and unquoted parts, whatever it holds |
| `ExpansionLoops.ExpandFields` | src/expand.rs:159-166 | the loop over the words of a brace expansion yields the fields of the word |
| `ExpansionLoops.ExpandBraces` | src/expand.rs:194-262 | the recursive brace expansion with its word limit, in its own loops |
| `ExpansionLoops.BraceRange` | src/expand.rs:264-316 | number and character ranges with their steps, widths and limits |
| `ExpansionLoops.ListNumbers` | src/expand.rs:277-298 | the loop over a number range |
| `ExpansionLoops.ListLetters` | src/expand.rs:299-314 | the loop over a character range, passing over surrogates |
| `ExpansionLoops.ScanOpenBrace` | src/expand.rs:198-225 | the quoting-aware scan for an open brace |
| `ExpansionLoops.SplitBraceCommas` | src/expand.rs:318-337 | the split at outer commas |
| `ExpansionLoops.SpliceElements` | src/expand.rs:572-589 | the loop that makes each further array element open a field |
| `ExpansionLoops.ReadDouble` | src/expand.rs:531-626 | the loop over a double-quoted string, arrays included |
| `ExpansionLoops.ReadParts` | src/expand.rs:409-523 | the unquoting loop |
| `ExpansionLoops.AssembleFields` | src/expand.rs:339-407 | forced field breaks, field splitting and globbing |

## Left out

- Shell: `case`, arithmetic `for`, arithmetic commands, `time`, pipelines, subshells, background jobs, functions, redirections, the EXIT and signal traps.
- ShellContinuations.ShellContinuation.Poll: without the waits and stops a poll can end with; exhaustion of CPU or memory and deadline interrupts inside the machine are not modelled.
- ShellContinuations.ShellContinuation.Abort: frames of the constructs above are not among those it unwinds.
- ShellContinuations.ShellContinuation.EvalStep: only the constructs of the model's tree.
- ShellContinuations.ShellContinuation.PrepareItems: a word list that needs a command substitution is one step of the oracle.
- FrameRefinement.MachineMatchesEvaluator: asks that the stack has room for the tree's static height, because beyond the frame limit the machine aborts; `OverflowBalanced` and `StepKeepsStack` cover that path.
- ShellMeaning.MachineEnds: asks for the same room on the stack.
- FrameRefinement.MachineDivergesWithEvaluator: asks for the same room on the stack.
- Arithmetic diagnostics: the wording and the error token; a failure is one of a few causes.
- ArithParser.Parser.Variable: array elements are plain entries of the store, and read-only variables are not modelled.
- ArithParser.Parser.Value: the unset-variable error of `set -u` is not modelled.
- ArithRoundTrip.EvaluatePrinted: trees whose text nests deeper than 256 are outside it, because the parser refuses them; scalar variables only.
- Descriptors: path, orphan and inode bookkeeping of regular files, directory listings.
- DescriptorObjects.DescriptorArena.Read: regular files are read by the file system behind it, and the generated bytes of the random devices are not modelled.
- DescriptorStreams.ReadinessForetells: states nothing about capture streams and devices, whose readiness is only an estimate in the code.
- Wakeups: wakes of child, lock and timer waiters beyond the fact that waking more tasks never breaks the property; a task that waits for several things at once waits for any of them. The run model of the scheduler and of the interpreter's calls is on values; `MachineObject` has the calls in place for the running task's table.
- MachineObject.Machine.ReadFd: regular files and the CPU charged for a call are not modelled.
- MachineObject.Machine.WriteFd: regular files, the broken-pipe signal and the CPU charged for a call are not modelled.
- MachineObject.Machine.CloseFd: the memory of a closed pipe's buffer is not modelled.
- MachineObject.Machine.ResetForExec: of what exec resets, only the descriptors.
- MachineObject.Machine.FinishTask: of what ends with a task, only its descriptors and its scheduler entry.
- Locks in the run model name the inode directly; that the caller looks it up once per open is not modelled.
- CallQueue.PollBlocksExactly: clock subscriptions of a poll are not modelled.
- Timeline: wall-clock time and the conversion to milliseconds and seconds.
- Ledger: pipe buffers, redirection snapshots and copy-on-write reservations, which other code makes and releases around one call; the disk budget.
- LedgerObject.Interpreter.LoadProgram: whether the image can be loaded is a parameter.
- LedgerObject.Interpreter.CreateChild: how far the creation gets is a parameter; conservation is stated for an unused process number, which the process table hands out.
- LedgerObject.Interpreter.SpawnPosixChild: the child's setup charges and whether it gets ready are parameters; conservation is stated for an unused process number.
- Network: static routes and the rest of the request log.
- HostRequests.VirtualNet.HostToolRequest: the size, header and JSON checks of a request are one flag.
- HostRequests.VirtualNet.CompleteHostRequest: the checks of a response are one flag.
- JSON: the program's own parser and the filter language; key order is that of the value.
- JsonRead.ReadUndoesRender: a number is its own text, any run of number bytes.
- JsonEmit.Emit: says nothing about the length written when the bound saturates at 18446744073709551615 bytes.
- Expansion: what patterns match, the values of `$` forms and backquotes, and the charging of expanded text, which can stop the machine in the middle of a word (its ledger side is in `MemoryLedger`).
- BracePatterns.PatternsExpand: literal text holds no brace, comma, quote, backslash or dollar sign; ranges and words nested beyond the limit are outside it.
- ExpansionLoops.ReadParts: a machine is stopped or running for a whole word.
- BraceExpansion.NumbersAt: the sign test in front of a range subtracts in 64 bits; the model wraps there, where a build with overflow checks would panic.
- Regular expressions, Wasm, Git, display, embedding and host-transport code: adapters around other libraries.
