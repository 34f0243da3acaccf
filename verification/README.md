# Verified model of Tsumugi

Tsumugi is an embeddable script language. It runs a program on a tree evaluator or, compiled to bytecode, on a
virtual machine; it charges what a program uses to a budget; and it keeps an audit record. This project models
those parts in Dafny and proves what each of them is for. `dafny verify dfyconfig.toml` checks everything.

## What is modelled

**The two engines.** `Lang` is the fragment of the language both engines execute (integers with their 64-bit range,
strings, booleans, null, lists, errors; `let`, assignment, element assignment, `if`, `while`, `for`, `break`,
`continue`, `try`, `return`, `print`). `Tree` is the tree evaluator as a big-step semantics over a stack of scopes,
with fuel, printed output and faults with their lines. `Machine` is the virtual machine, instruction by instruction,
with its handler stack and its step watchdog. `CodeGen` is the code a program becomes. `Slots` is a semantics in
between: names already resolved to stack slots. `Agreement` takes the tree evaluator to the slots, `ExprSimulation`
and `StmtSimulation` take the slots to the machine, and `Preservation` puts both together: a compiled program reports
the same fault on the same line, the same remaining fuel and the same output, for every program and any fuel, also
when the fuel runs out in the middle. The value-level rules that both engines share have laws of their own in
`Operators`: what division, overflow, truth, indexing, nesting and printing mean. `Divergence` shows that the two
conditions of that theorem are needed, and where exactly each of them fails.

**The compiler as it is written.** `Chunks` and `Compiling` are the compiler's own classes: they emit, patch jumps in
place, open and close scopes and loops. Each method is proved to extend the code by exactly the fragment that
`CodeGen` defines, so the theorems about generated code are theorems about what the compiler builds. `Emission` holds
the pure state of a compiler and the algebra of patches.

**Discipline of compiled code.** `Discipline` and `StackSafety` give each instruction one stack height and one stack
of handlers, on all paths and in all runs. `Verifier` is the chunk verifier: a chunk that passes it never leads the
machine out of its code, and every compiled chunk passes it.

**Captures.** `Captures` is the part of the compiler that resolves names through functions nested to any depth.

**What closures keep.** `Syntax` is the whole syntax tree. `Closures` is the tree evaluator again, this time with
closures over shared cells. `CaptureSuffices` and `CapturePreserved` run it twice side by side, capturing everything
that is visible and capturing only the names a body mentions, and show that nothing tells the runs apart. What that
evaluator computes is pinned by `Embedding`: without closures it runs every program as `Tree` does, and a call runs as
the block of its body. `ClosureValues` has the laws of dictionaries, f-strings and functions. `Ownership` and
`AstWalks` divide the cost of the tree among the root and the closure bodies.

**The budget.** `Ledger` reserves, commits and refunds several resources as one and writes an audit stream that
replays to its counters and accounts for all heap that was given back. `Equality` is budgeted equality over shared
structure. `Baseline` charges every reachable heap object once.

**The audit record.** `Accumulator` aggregates charges and loses none, `Journal` admits envelopes and always keeps
room for the last one, `Ticket` is the wake protocol in all interleavings. `Cbor` is the layer of heads and items
(section 4.2.1 of RFC 8949), `AuditEncoding` gives every audit type its item and shows that distinct values have
distinct items, and `AuditWriters` are the encoders themselves, each writing its own tag, its own count and its fields
to a counting or a keeping output. `CborReader` is a decoder written from section 3 and appendix C of RFC 8949, and
`AuditReader` a reader of the schema on top of it; together they give back every envelope that was encoded.

**Two small inverses.** `Calendar` is the conversion of timestamps to dates. `Paths` is the parser of script paths and
the canonical label.

## Results that a reader may not expect

- The engines differ on a `while` whose condition prints: the tree evaluator evaluates the condition once to decide
  whether to enter (`src/eval.rs:3374-3388`) and once more in the loop (`src/eval.rs:2112-2200`). They agree exactly when that
  first evaluation is not both true and printing (`Divergence.EntersOnceIff`).
- The locals `__collection__` and `__index__` that a `for` loop keeps for itself are legal identifiers. Inside the loop
  the compiled program reads, assigns and changes elements of them where the tree evaluator finds no variable, and
  exactly there the engines differ (`Divergence.HiddenReadIff`, `Divergence.HiddenAssignIff`,
  `Divergence.HiddenIndexAssignIff`), provided that the program declares no variable of such a name. One that does, with
  `let __index__` inside the loop, uses the same variable in both engines.
- `reserve_all` looks at a list request by request, so a list that names a resource twice can pass a limit
  (`Ledger.TwiceNamedOverruns`). The limits are kept and every counter takes in the full sum exactly for the lists that fit
  together, resource by resource (`Ledger.KeepsLimitsIff`). An accepted list that names no resource twice always does
  (`Ledger.OnceFits`), and no charge of the ledger builds another.
- Equality takes a shared node to be equal to itself even when it holds a NaN (`Equality.SharedNaN`). Structural equality
  of the unfolded values is that answer together with the absence of NaN (`Equality.StructuralIff`), so a value compares
  structurally with every other exactly when it is no node or holds no NaN (`Equality.StructuralForAllIff`).
- The clock of a deadline does not appear in the encoding of an event (`AuditEncoding.ClockIsInvisible`).

## Model

| member | source | states |
|---|---|---|
| Preservation.CompilationPreservesMeaning | src/compiler.rs:201-606 | A compiled program, run on the machine, comes to rest with the fault, line, remaining fuel and output of the tree evaluator, and with no others, for every program of the fragment and any fuel |
| Preservation.NoInternalError | src/vm.rs:554-708 | The defensive branches of the machine are never reached by compiled code, whatever names it uses |
| Preservation.ReportIsUnique | src/vm.rs:554-708 | A program comes to rest in at most one way |
| Operators.DivisionTruncates | src/eval.rs:4004-4021 | In both engines, for all machine integers: quotient and remainder multiply back to the dividend, the remainder is smaller than the divisor and has the sign of the dividend; the only failures are the zero divisor and the least integer divided by -1 |
| Operators.TruncatedOnce | src/eval.rs:4004-4021 | No other quotient and remainder have these properties |
| Operators.ArithmeticIsExact | src/eval.rs:3989-4003 | Sums, differences, products and negations are exact in both engines, or overflow exactly when 64-bit wrapping would change the result, each under its own name |
| Operators.StringsJoin | src/eval.rs:4069-4079 | In both engines strings join with the second behind the first, and an error joins as its text |
| Operators.TypesAreTold | src/error.rs:14-30 | Faults name different types by different names |
| Operators.ComparisonsOrder | src/eval.rs:4085-4101 | In both engines the six comparisons of integers are decided by the sign of their difference |
| Operators.FalseValues | src/value.rs:1251-1265 | Of each kind of value exactly one counts as false, and errors never do |
| Operators.IndexReads | src/eval.rs:3919-3972 | A list is read at an index from either end, as two copies in a row would be, and nowhere else |
| Operators.CharacterReads | src/eval.rs:3934-3946 | A string is read likewise, character by character |
| Operators.ReadAfterWrite | src/eval.rs:3342-3362 | An element assignment succeeds exactly where the element can be read and the value is not nested too deep; then the value is read back, and every other position is read as before |
| Operators.IterationIsIndexing | src/vm.rs:1688-1720 | Iterating visits exactly what indexing from 0 on would read, and all of it |
| Operators.ErrorTells | src/eval.rs:3954-3970 | A caught error gives its kind, its text and its line under those three keys |
| Operators.NestedIsDepth | src/value.rs:877-887 | The depth of a value is the length of its longest chain of lists within lists |
| Operators.AppendAdmits | src/value.rs:895-905 | A list literal takes an element exactly while both limits allow it, and the limit of the collection is reported first |
| Operators.PrintedOneByOne | src/vm.rs:1538-1547 | The printed line grows at its end by a space and the next value |
| Operators.KindsSortCauses | src/error.rs:153-170 | Every cause has exactly one kind, and no `catch` sees exactly the limits of steps and of collections |
| Agreement.ProgramAgrees | src/eval.rs:3316-3486 | Resolving names to slots, with hidden loop locals and popped scopes, gives every program the report of the scope stack |
| Agreement.StmtAgrees | src/eval.rs:3316-3486 | Each statement keeps the layering of scopes over slots and ends in the same way with the same bindings |
| Agreement.EvalAgrees | src/eval.rs:3757-3915 | An expression evaluates alike from a scope stack and from the slots it is laid out in |
| ExprSimulation.ExprRuns | src/compiler.rs:609-760 | The code of an expression, from any state, delivers the value on top of an otherwise unchanged stack, or raises the same fault at the same line |
| ExprSimulation.ShortCircuitRuns | src/compiler.rs:629-660 | `and` and `or` skip the right operand exactly when the left decides, and leave one value |
| ExprSimulation.IndexRuns | src/compiler.rs:609-760 | Reading an element from a slot in place and through the stack give the same value or fault |
| StmtSimulation.StmtRuns | src/compiler.rs:201-307 | The code of a statement lands at its end, at its loop's exit or continuation, at the end of the program or in a handler, with the locals in their slots and nothing else on the stack |
| StmtSimulation.BlockRuns | src/compiler.rs:201-307 | Statement lists compose, and stop at the first that does not end normally |
| StmtSimulation.ScopedRuns | src/compiler.rs:957-977 | A block with a scope of its own pops exactly its own locals on every way out |
| StmtSimulation.WhileLoopRuns | src/compiler.rs:405-449 | The loop on the machine and the loop of the semantics take the same turns, and charge the same steps |
| StmtSimulation.ForLoopRuns | src/compiler.rs:452-548 | The lowered `for`, with its hidden list and index and a fresh binding in each round, makes exactly the rounds over the items taken at the start |
| StmtSimulation.BreakRuns | src/compiler.rs:549-574 | `break` tears down the handlers and pops the locals entered since the loop began, and lands at its exit |
| StmtSimulation.ContinueRuns | src/compiler.rs:575-606 | `continue` unwinds likewise and lands at the next round |
| StmtSimulation.TryRuns | src/compiler.rs:310-362 | A fault in the protected code reaches the catch code with the stack cut back and the error as its one new local, and faults that cannot be caught pass |
| StmtSimulation.IfElseRuns | src/compiler.rs:365-403 | Exactly one branch runs, and both rejoin |
| Machine.StepsAdd | src/vm.rs:554-708 | Runs of the machine compose |
| Divergence.EntersOnceIff | src/eval.rs:3374-3388 | The repeated first evaluation of a `while` condition shows exactly when it is true and prints, and then by just what it printed |
| Divergence.PrintingLoopDiffers | src/eval.rs:3374-3388 | A program that prints twice in the tree evaluator, and whose compiled chunk reports one line and nothing else |
| Divergence.HiddenReadIff | src/compiler.rs:465-480 | From scopes related to slots, which hold no variable of a hidden name, the two reads of a name differ exactly when the name is a hidden loop local inside a `for` |
| Divergence.HiddenAssignIff | src/compiler.rs:465-480 | From such scopes an assignment ends differently exactly when its value is there and its name is a hidden loop local inside a `for` |
| Divergence.HiddenIndexAssignIff | src/compiler.rs:465-480 | From such scopes an element assignment ends differently exactly when its name is a hidden loop local inside a `for`, whatever its index and value do |
| Divergence.PeekingLoopDiffers | src/compiler.rs:465-480 | A program that reads the hidden index: an undefined name for one engine; the compiled chunk reports that it prints a number |
| Chunks.Chunk.Emit | src/chunk.rs:82-85 | Appends one instruction with its line |
| Chunks.Chunk.EmitConstant | src/chunk.rs:94-97 | Appends the value to the constants and an instruction that loads that very entry |
| Chunks.Chunk.EmitJump | src/chunk.rs:105-110 | Appends a waiting jump and returns where it stands |
| Chunks.Chunk.PatchJump | src/chunk.rs:116-133 | Aims exactly the named jump at the end of the code; anything else is refused and changes nothing |
| Compiling.Compiler.Compile | src/compiler.rs:155-166 | The finished chunk holds exactly the generated code and constants and the peak number of locals; it is refused exactly for the first misplaced `break` or `continue` |
| Compiling.Compiler.CompileStmt | src/compiler.rs:201-307 | Extends the compiler's state by the generated fragment of the statement, with its jumps patched and its forward jumps recorded |
| Compiling.Compiler.CompileExpr | src/compiler.rs:609-760 | Extends the code by the generated fragment of the expression and changes nothing else |
| Compiling.Compiler.CompileIf | src/compiler.rs:365-403 | Both patched jumps of a conditional end up where the generated code has them |
| Compiling.Compiler.CompileWhile | src/compiler.rs:405-449 | The exit and all collected breaks are patched to the end of the loop |
| Compiling.Compiler.CompileFor | src/compiler.rs:452-548 | The hidden locals, the rounds, the waiting continues and the breaks are laid out as generated |
| Compiling.Compiler.CompileTryCatch | src/compiler.rs:310-362 | The handler address and the jump over the catch code are patched as generated, with the handler depth restored |
| Compiling.Compiler.CompileBreak | src/compiler.rs:549-574 | Emits the unwinding and records the jump for the innermost loop, or refuses outside of one |
| Compiling.Compiler.CompileContinue | src/compiler.rs:575-606 | Emits the unwinding and a back edge or a waiting jump, or refuses outside of a loop |
| Compiling.Compiler.EndScope | src/compiler.rs:963-977 | Forgets exactly the locals deeper than the outer scope and emits one pop for each |
| Compiling.Compiler.DeclareLocal | src/compiler.rs:1090-1105 | Names the top slot, registers it as a global at the top level and raises the peak when needed |
| Compiling.Compiler.ResolveLocal | src/compiler.rs:1107-1115 | Finds the innermost local of the name, or none |
| Compiling.Compiler.PatchJump | src/compiler.rs:111-122 | Patches a jump within the code, and refuses everything else as an internal error |
| Discipline.StmtSpans | src/compiler.rs:201-606 | Every statement's code has shapes on which all its incoming edges agree, from the height of the locals before to that of the locals after |
| Discipline.ExprSpans | src/compiler.rs:609-760 | An expression's code leaves the stack one taller under the same handlers, on all its paths |
| Discipline.TrySpans | src/compiler.rs:310-362 | A catch entry has the height of its `SetupTry` plus one, and the handlers of before |
| Discipline.BreakSpans | src/compiler.rs:549-574 | A `break` arrives at its target with the height and the handlers of the loop's entry |
| StackSafety.StepFollows | src/vm.rs:1190-1800 | Every step of the machine, raised faults included, stays within the shapes |
| StackSafety.RunFollows | src/vm.rs:554-708 | Every run of the machine stays within the shapes |
| StackSafety.OneShapePerInstruction | src/compiler.rs:451-606 | Whenever any two runs of a compiled program stand at one instruction, their stacks have the same height and the same handlers are active |
| StackSafety.BoundaryHeight | src/compiler.rs:1099-1105 | Between the statements of the top level the stack holds the declared locals and nothing else |
| Verifier.Verify | src/verifier.rs:141-250 | Of chunks in the modelled instructions, without nested prototypes, accepts exactly those with a full line table and no violation, and reports the first violation otherwise |
| Verifier.VerifiedStaysInCode | src/verifier.rs:141-250 | A chunk that was accepted never leads the machine out of its code, neither by a jump nor by a caught error, whatever stands on its stack, in any number of steps |
| Verifier.VerifiedOperands | src/verifier.rs:141-250 | Its constants are always there, and so are its slots once the declared locals and two operands are |
| Verifier.ViolationKinds | src/verifier.rs:141-250 | Each rule is reported for its own instructions only |
| StackSafety.CompilerOutputPasses | src/verifier.rs:36-52 | Every compiled chunk passes the verifier, so skipping it is sound |
| Captures.FunctionCompiler.CompileScript | src/compiler.rs:980-1087 | Every use of a name, in functions nested to any depth, reaches the binding that lexical scoping picks at the definition, shadowed names included |
| Captures.ChaseIsLexical | src/compiler.rs:1116-1223 | Following captures outward ends at the slot of exactly that binding |
| Captures.FunctionCompiler.ResolveUpvalue | src/compiler.rs:1119-1139 | Registers a capture exactly for the names that some enclosing function binds |
| Captures.FunctionCompiler.AddUpvalue | src/compiler.rs:1141-1158 | Appends a capture exactly when none of the same source is registered, and returns one of that source |
| Captures.FunctionCompiler.BuildAncestorVars | src/compiler.rs:1160-1184 | Lists exactly the names a child can see beyond this function |
| Captures.FunctionCompiler.ResolveChildUpvalues | src/compiler.rs:1186-1197 | Links every capture of a child to a local of this function or to a capture of its own |
| Captures.FunctionCompiler.EnsureUpvalueForAncestor | src/compiler.rs:1198-1223 | For a name that an enclosing function binds, as every caller asks, the capture it returns is one of the name and the fallback is not reached |
| Equality.ValuesEqual | src/budget.rs:1874-1940 | Answers as the recursive definition does, and for scalars and lists of one scalar as numbers, texts and truth values compare; charges at most the square of the number of nodes however large the unfolding, and runs out only when that would exceed the fuel |
| Equality.ScalarEqIff | src/value.rs:809-819 | Two scalars are equal exactly if both are numbers of the same amount, or neither is a number or NaN and they are the same |
| Equality.EqualIffAlike | src/value.rs:802-847 | Structural equality, without recursion: no path of positions leads to a difference |
| Equality.StructuralIff | src/value.rs:802-847 | For all values, structural equality of the unfolded values is the answer of the comparison together with the absence of NaN |
| Equality.StructuralForAllIff | src/value.rs:802-847 | Comparing a value with anything is structural exactly when it is no node or holds no NaN |
| Equality.EqualIsStructural | src/value.rs:802-847 | Where one value holds no NaN, the answer is structural equality of the unfolded values |
| Equality.SelfEqualIff | src/value.rs:802-847 | A value equals itself exactly when it holds no NaN |
| Equality.SharedNaN | src/budget.rs:1874-1940 | A shared list with a NaN equals itself on the heap and not when unfolded |
| Baseline.ChargeContextBaseline | src/budget.rs:2278-2374 | Ends on every heap, cycles included; succeeds exactly when the sum over all slots and all reachable objects, each once, fits the limit, and then grows the live heap by that sum |
| Baseline.VisitValue | src/budget.rs:2311-2371 | Each kind of value pays what it owes once and lists exactly the slots behind it |
| Baseline.AllocationLedger.Charge | src/budget.rs:834-863 | Takes the charge and moves the peak, or changes nothing and reports limit, use and request, with overflow as an unbounded request |
| Baseline.AllocationLedger.Release | src/budget.rs:870-872 | Gives back no more than is live |
| Baseline.Finish | src/budget.rs:2278-2374 | A finished walk has visited exactly the smallest closed set of objects that holds the roots |
| Baseline.OrderDoesNotMatter | src/budget.rs:2278-2374 | The sum, and with it success, is the same for any order of roots, entries and captured cells |
| Baseline.SharingCostsOneSlot | src/budget.rs:2278-2374 | A further reference to something reachable costs its slot and nothing else |
| Baseline.SizesSaturate | src/budget.rs:707-778 | The nested saturating sizes are the true sizes, cut off once |
| Ledger.BudgetLedger.ReserveOne | src/budget.rs:1315-1352 | Admits a request exactly when committed, reserved and requested together fit, without overflow, and reports the numbers otherwise |
| Ledger.BudgetLedger.ReserveAll | src/budget.rs:1354-1388 | All requests or none; a refusal names the failing resource that comes first in the fixed order; after an accepted list every limit is kept and every counter has taken in the full sum exactly when the list fits together |
| Ledger.BudgetLedger.Commit | src/budget.rs:1390-1405 | Moves at most the reservation to the counters, frees the rest, and records the same amount in the audit stream |
| Ledger.BudgetLedger.Refund | src/budget.rs:1407-1409 | Frees a reservation in full |
| Ledger.BudgetLedger.ReserveAndCommit | src/budget.rs:1420-1431 | Leaves nothing reserved, and counts all of the requests or none of them |
| Ledger.BudgetLedger.Run | src/budget.rs:1420-1815 | Through any sequence of charges nothing stays reserved, host bytes are requests plus responses, inputs and outputs never outnumber host calls, and their bytes are among those of responses and requests |
| Ledger.BudgetLedger.DrainBudgetCharges | src/budget.rs:2234-2236 | The whole stream drained so far replays, event by event, to every committed counter, and its heap releases add up to all bytes ever released, as far as that fits 64 bits; what is handed out sums up the notes of each key, in pieces of 256 |
| Ledger.BudgetLedger.CheckSignals | src/budget.rs:1283-1313 | Cancellation comes before the deadline, and no clock means no deadline |
| Ledger.RequestsAsk | src/budget.rs:1420-1815 | No charge names a resource twice, and each asks for what it counts |
| Ledger.ChargedByUnit | src/budget.rs:1420-1815 | Whatever a charge asks for, calls, sources and allocations are counted one by one, and bytes and fuel by their amount |
| Ledger.BalanceKept | src/budget.rs:1633-1815 | Every kind of charge keeps the host counters consistent with each other |
| Ledger.ReplayAddsUp | src/audit.rs:984-1014 | Where each event continues from the last, usage is the sum of the deltas |
| Ledger.KeepsLimitsIff | src/budget.rs:1354-1388 | For every list: each counter takes in the full sum, past the narrowing to 32 bits, and stays within its limit, exactly when use, reservation and all requests for a resource together fit |
| Ledger.OnceFits | src/budget.rs:1354-1388 | A list whose requests each fit and name no resource twice fits together |
| Ledger.BudgetLedger.NoteHeapRelease | src/budget.rs:2212-2226 | A release of heap, unless empty, is noted once with its bytes, live and peak, and the stream still replays to the counters and owes the bytes |
| Ledger.BudgetLedger.PendingReleases | src/budget.rs:2212-2236 | In every state of a run the drained events, the finished events and the open group account for all bytes of heap that were released, as far as those fit 64 bits |
| Ledger.PriorityIsDeclared | src/budget.rs:519-543 | The order in which failing resources are reported is that of their declaration, without repetition |
| Ledger.ResourceTables | src/budget.rs:545-558 | Which resources have which unit, which reason, a narrow counter or none |
| Ledger.CountersWrap | src/budget.rs:1390-1405 | Counters of sources and imports wrap at 32 bits, all others at 64, and not before |
| Ledger.TwiceNamedOverruns | src/budget.rs:1354-1388 | Naming a resource twice can reserve more than its limit |
| Accumulator.BudgetChargeAccumulator.NoteCharge | src/audit.rs:984-1014 | Adds the charge to what was noted and to the open group of its key, or begins one, and cuts it off at 256 |
| Accumulator.BudgetChargeAccumulator.NoteRelease | src/audit.rs:1021-1053 | Adds the release, with live and peak, to what was noted and to the open group of its key, or begins one, and cuts it off at 256 |
| Accumulator.BudgetChargeAccumulator.PushFinalized | src/audit.rs:1056-1062 | The byte count stays the sum over the buffer, cut off once |
| Accumulator.BudgetChargeAccumulator.Flush | src/audit.rs:1080-1089 | Hands out the finished events in order, then the open groups, each once and strictly ascending in their keys, and starts afresh; the events of each key are the sums of its notes, in pieces of 256 |
| Accumulator.StreamSumsUp | src/audit.rs:972-1053 | However the keys were interleaved, the finished events of a key sum up its notes in pieces of 256 and its open group the rest: amounts committed and released, the count, the last usage, and the peak of the last release if there was one |
| Accumulator.NothingLost | src/audit.rs:1021-1053 | As long as the sums fit 64 bits, the finished events and the open group of a key account for all that was committed and for all that was released |
| Accumulator.BudgetChargeAccumulator.QueueBytes | src/audit.rs:1056-1062 | The queue of finished events is counted with 128 bytes for each, cut off once |
| Accumulator.NotedOpen | src/audit.rs:972-1053 | A note moves its own group and leaves every other key alone; keys stay distinct and groups below the threshold |
| Accumulator.SortKeeps | src/audit.rs:1091-1131 | Sorting loses and adds no group and leaves them ascending |
| Accumulator.ResidualIsIndependent | src/audit.rs:1080-1131 | The residual part depends on the notes of each key and not on how the keys were interleaved |
| Journal.Validate | src/audit.rs:1202-1232 | Accepts exactly the configurations of at least two events that reserve one terminal event with at least 64 KiB and two closing events with at least 128 KiB |
| Journal.AuditJournal.AppendNormal | src/audit.rs:1399-1475 | Accepts an envelope exactly when it continues the record and fits the normal share, told by the true sums of sizes; a rejected one changes nothing; when it is too large and when it breaks the order is told likewise; numbers never run out |
| Journal.AuditJournal.AppendTerminal | src/audit.rs:1522-1546 | In every started, unterminated state the next terminal event is accepted, however full the journal is; the record then keeps to the budgeted number of events and, if the event fits its reserve, of bytes |
| Journal.AuditJournal.RecordHostCall | src/audit.rs:1477-1515 | Once a host call was granted room, its three events within the reserved sizes are all accepted |
| Journal.AuditJournal.Attempt | src/audit.rs:1334-1546 | Any attempts leave the accepted envelopes numbered 0, 1, 2 and on, with one start first and one terminal last |
| Journal.RoomForThree | src/audit.rs:1483-1515 | The saturating sums of the reservation test never admit a host call without room |
| Journal.EstimateSaturates | src/audit.rs:1258-1297 | The nested saturating estimate of an envelope is the true sum of its parts, cut off once |
| Ticket.NoLostWake | src/audit.rs:1680-1766 | In every interleaving of one completion with any number of other calls, once all have returned: if any waker was registered, a registered one is in the slot, and it was woken after the result had become ready |
| Ticket.SlotHoldsLast | src/audit.rs:1680-1690 | In every schedule the slot holds exactly the waker of the registration that was last in its lock section, and nothing before the first |
| Ticket.SlotKept | src/audit.rs:1680-1690 | From its lock section until another registration passes its own, whatever else happens, a registration's waker is in the slot |
| Ticket.NoEarlyWake | src/audit.rs:1748-1766 | No waker is woken before the result is ready |
| Ticket.DeliveredAtMostOnce | src/audit.rs:1694-1705 | At most one call returns a result; it is a `try_take`, and the result is the stored one, unchanged |
| Ticket.NotAfterCancel | src/audit.rs:1694-1711 | The call that returned the result took it at one point, before any cancellation took effect, and every `cancel` that has returned took effect |
| Ticket.GoneForGood | src/audit.rs:1694-1711 | What a take or a cancellation removed never comes back |
| Ticket.NextTakeDelivers | src/audit.rs:1694-1705 | A take that begins when the result is ready, with anything going on beside it, returns the result unless a cancellation took effect or another call took it |
| Ticket.EveryCallReturns | src/audit.rs:1680-1766 | Every call returns after at most three steps of its own and the completion after at most four, whatever the others do |
| Ticket.StepKeeps | src/audit.rs:1680-1766 | Each atomic step of `complete`, `register_waker`, `try_take` and `cancel` keeps the invariant of the protocol |
| Cbor.HeadReads | src/audit.rs:2254-2279 | A decoder reads every head back, whatever follows |
| Cbor.ShortestHead | src/audit.rs:2254-2279 | Each head is the unique shortest form |
| Cbor.PrefixFree | src/audit.rs:2254-2325 | What the primitives write, nested in arrays in any way, determines itself and what follows it |
| CborReader.IntReadsBack | src/audit.rs:2286-2292 | A decoder by the standard reads every 64-bit integer back, negative ones included, behind anything and before anything |
| CborReader.UintReadsBack | src/audit.rs:2281-2283 | It reads every unsigned 64-bit number back |
| CborReader.StringsReadBack | src/audit.rs:2294-2304 | It reads every byte string and every text string back |
| CborReader.SimpleValuesReadBack | src/audit.rs:2311-2319 | It reads false, true and null back |
| CborReader.ArrayReadsBack | src/audit.rs:2306-2309 | It reads a header followed by that many items as the list of them |
| CborReader.ItemReads | src/audit.rs:2254-2319 | It reads every item back, arrays nested to any depth, and leaves exactly what follows |
| AuditEncoding.AuditFieldInjective | src/audit.rs:2605-2640 | Fields and values, nested in each other and in sorted maps, are determined by their encoding |
| AuditEncoding.AuditEventInjective | src/audit.rs:2642-2716 | Every kind of event is determined by its encoding, up to the clock of a deadline |
| AuditEncoding.TerminalOutcomeInjective | src/audit.rs:2495-2513 | Every terminal outcome is determined by its encoding |
| AuditEncoding.AuditErrorPayloadInjective | src/audit.rs:2562-2581 | Every error payload is determined by its encoding |
| AuditEncoding.AuditYieldReasonInjective | src/audit.rs:2481-2493 | Every reason for a yield is determined by its encoding |
| AuditEncoding.BudgetUsageInjective | src/audit.rs:2522-2555 | Every usage record is determined by its encoding |
| AuditEncoding.EnvelopesPrefixFree | src/audit.rs:2442-2447 | Encodings of envelopes followed by anything determine the envelopes, up to the clock of a deadline, and what follows |
| AuditEncoding.ClockIsInvisible | src/audit.rs:2515-2520 | The clock of a deadline is exactly what the encoding leaves out |
| AuditEncoding.TagsCountDeclarations | src/audit.rs:2449-2479 | The tag of every variant is its place in the declaration, from 0 on, and no variant is missing |
| AuditWriters.OptionPuts | src/audit.rs:2396-2404 | An option is written as its tag and count and, if there is one, its value, for any writer of values |
| AuditWriters.BudgetConfigPuts | src/audit.rs:2522-2532 | The header count and the 21 fields written one after the other are the encoding of a configuration, its deadline as a tick |
| AuditWriters.BudgetUsagePuts | src/audit.rs:2550-2555 | Counters, peaks and totals are written as the encoding of a usage record, on either pass |
| AuditWriters.AuditErrorPuts | src/audit.rs:2562-2567 | The fields of an error are written as its encoding, with its optional parts and its list of frames |
| AuditWriters.AuditErrorPayloadPuts | src/audit.rs:2569-2581 | Either form of an error payload is written as its encoding, under its own tag and count |
| AuditWriters.AuditScalarPuts | src/audit.rs:2583-2603 | Every scalar is written as its encoding, with the sign split of integers and the eight bytes of a float |
| AuditWriters.AuditValuePuts | src/audit.rs:2605-2613 | Every value is written as its encoding, with lists and maps nested to any depth |
| AuditWriters.EachEntryPuts | src/audit.rs:2414-2425 | A map is written entry by entry, each an array of two with its own header |
| AuditWriters.AuditFieldPuts | src/audit.rs:2621-2640 | Every field, revealed, hashed or omitted, is written as its encoding |
| AuditWriters.AuditEventPuts | src/audit.rs:2642-2716 | Every kind of event is written as its encoding, with the tag and the count that its branch writes |
| AuditWriters.AuditEnvelopePuts | src/audit.rs:2442-2447 | Whatever is already in the output, the encoding of an envelope is added, or the count overflows exactly when the sum does |
| AuditWriters.PassesAgree | src/audit.rs:2721-2737 | For every envelope the result is what was written, or an overflow exactly when its length does not fit; the mismatch is never reported |
| AuditWriters.EncodedPrefixFree | src/audit.rs:2729-2737 | Streams that begin with two encoded envelopes and are equal began with equal envelopes, up to the clock of a deadline, and go on equally |
| AuditWriters.BoundHolds | src/audit.rs:2739-2757 | The bound on the fixed part plus the length of the event is never below the length of the envelope, at most eight above, and equal exactly when the number takes nine bytes |
| AuditReader.EncodedReadsBack | src/audit.rs:2729-2737 | A reader of the schema gives back the envelope from what was encoded, all of it but the clock of a deadline, and leaves exactly what follows |
| AuditReader.EventRead | src/audit.rs:2642-2716 | It gives back every kind of event from its item |
| AuditReader.ScalarRead | src/audit.rs:2583-2603 | It gives back every scalar: integers of both signs, the bits of floats, texts and truth values |
| AuditReader.ValueRead | src/audit.rs:2605-2613 | It gives back every value, with lists and maps nested to any depth |
| AuditReader.ErrorRead | src/audit.rs:2562-2567 | It gives back every error, with its optional parts and its frames |
| AuditReader.UsageRead | src/audit.rs:2550-2555 | It gives back every usage record, each number in its own place |
| Calendar.CivilFromTimestamp | src/builtin_core.rs:2144-2185 | For every 64-bit timestamp the result is an existing date and time with that timestamp; no step overflows and the year loop turns at most 399 times |
| Calendar.YearOfDays | src/builtin_core.rs:2156-2170 | The year and the day in it stand for the day number |
| Calendar.MonthOfDays | src/builtin_core.rs:2172-2185 | The month never passes 12, and month and day stand for the day of the year |
| Calendar.MonthLengths | src/builtin_core.rs:2172-2185 | The months alternate between 31 and 30 days, beginning anew with August, and February is shorter |
| Calendar.CycleLength | src/builtin_core.rs:2156-2162 | Every window of 400 years has 146097 days |
| Calendar.YearStep | src/builtin_core.rs:2200-2202 | The loop's leap rule agrees with counting leap years in closed form |
| Calendar.TimestampInjective | src/builtin_core.rs:2144-2185 | No two dates have the same timestamp, so the conversion is the inverse |
| Paths.ParsePath | src/capability.rs:1141-1197 | Reads exactly the spellings of well-formed targets, each as its target, and refuses everything else with exactly the error it deserves |
| Paths.RefusedAsDeserved | src/capability.rs:1141-1197 | The error of a refusal, told without the parser: which character, mount, root or first faulty component causes it |
| Paths.FaultIsComplaint | src/capability.rs:1180-1190 | A component has at most one fault: empty, one dot, two dots, or a colon |
| Paths.CheckMountName | src/capability.rs:726-742 | Accepts exactly an ASCII letter followed by at most 31 ASCII letters, digits, underscores and hyphens |
| Paths.CheckDrivePrefix | src/capability.rs:1201-1204 | Finds exactly a letter followed by a colon at the beginning |
| Paths.CanonicalLabel | src/builtin_core.rs:1658-1666 | The label of a well-formed target reads back as that target, and no other well-formed target has it |
| Paths.Accepted | src/capability.rs:1148-1197 | A path is read as a target exactly when the target is well formed and the path is one of its spellings |
| Paths.LabelReadsBack | src/builtin_core.rs:1654-1666 | The label of anything that was read is read as the same target |
| Paths.LabelInjective | src/builtin_core.rs:1654-1666 | Two targets with one label are one target |
| Paths.SameLabelSamePlace | src/builtin_core.rs:1654-1666 | Paths name the same place exactly when their labels are equal |
| Paths.ComponentsPortable | src/capability.rs:1180-1190 | No component is empty, a dot, two dots, or contains a slash, a backslash, a NUL or a colon |
| AstWalks.AstHeapSize | src/ast.rs:563-681 | The worklist charges every node of the program once, cut off once |
| AstWalks.ReferencedNames | src/ast.rs:438-542 | The worklist gathers exactly the names that some node of the body or of a nested body mentions |
| AstWalks.AstClosureBodySizes | src/ast.rs:703-873 | The recursion returns the cost of the root's own nodes and, for each body, the cost of the nodes that body owns itself |
| AstWalks.BodySplitter.WalkStmt | src/ast.rs:744-813 | Each form of statement adds its own cost and its owner's children, and cuts its closure body off |
| AstWalks.BodySplitter.WalkExpr | src/ast.rs:815-869 | Likewise for each form of expression |
| AstWalks.BodySplitter.RecordBody | src/ast.rs:730-742 | A body is cut out the first time it is met, after the bodies inside it |
| AstWalks.ClosureBodySubtreePtrs | src/ast.rs:882-1006 | Lists the identities of a body and of the bodies inside it, in the order they are met |
| AstWalks.PartsMakeTheWhole | src/ast.rs:557-562 | The charged parts add up to the whole size when bodies are distinct, and never to more |
| Ownership.OwnersPartitionTheTree | src/ast.rs:683-702 | With distinct bodies every node is owned by the root or by one body, exactly once |
| Ownership.OwnersNeverOvercount | src/ast.rs:683-702 | With shared bodies no node is counted more often than it occurs |
| Ownership.EveryBodyOnce | src/ast.rs:683-702 | Each distinct body of the program is one unit, and every unit is a body of the program |
| Ownership.SubtreeIsComplete | src/ast.rs:875-882 | What a closure keeps is its body and every body inside it, each once |
| Ownership.SubtreeIsCharged | src/ast.rs:875-882 | Every body a closure of the program keeps is one that was charged |
| CapturePreserved.CapturingLessChangesNothing | src/ast.rs:431-542 | A program prints, fails, spends and binds the same whether closures capture everything or the mentioned names, and leaves equal values |
| CapturePreserved.RestrictedCallSame | src/env.rs:339-347 | A single call does not depend on captured cells its body does not mention |
| CapturePreserved.ExprSame | src/eval.rs:3757-3915 | Both ways of capturing give every expression the same outcome and related states |
| CapturePreserved.StmtSame | src/eval.rs:3316-3486 | And every statement the same flow and environments that agree on every mentioned name |
| CapturePreserved.InvokeSame | src/eval.rs:4334-4390 | Inside a call the frames agree on all names of the body, whatever else was captured |
| CapturePreserved.NestedNamesAreMentioned | src/ast.rs:431-437 | The names of a nested body are among those of the body around it |
| CapturePreserved.UnmentionedOnly | src/env.rs:339-347 | Without the cell of a mentioned name a call does fail |
| CaptureSuffices.CaptureSame | src/env.rs:339-347 | Where environments agree on the mentioned names, both ways capture the same cells for them |
| Closures.WhatIsCaptured | src/env.rs:339-347 | A closure holds the cell that each name has where it is made, innermost scope first: of every name bound there, or of those that its body mentions, and of no others |
| Embedding.ProgramsAlike | src/eval.rs:3316-3486 | The evaluator with closures runs every program without closures as the scope-stack evaluator does: the same output, the same steps left, the same fault or none, whichever way closures would capture |
| Embedding.StmtAlike | src/eval.rs:3316-3486 | From laid-out scopes each statement ends alike, and leaves the same values in the cells of the same variables |
| Embedding.ExprAlike | src/eval.rs:3757-3915 | An expression evaluates alike from scopes and from the cells they are laid out in, and touches no cell |
| Embedding.CallIsBlock | src/eval.rs:4334-4390 | A call of a function value is the run of its body as a block, inside the variables that the closure holds and the other global ones, with the parameters as new variables; what it assigns to shared variables is in their cells afterwards |
| Embedding.CallExpression | src/eval.rs:4334-4390 | A call expression takes a step, then looks at the depth and the number of arguments, then evaluates the arguments from left to right, and then runs that block |
| Embedding.RulesExist | src/eval.rs:3976-4101 | Hosts with these rules exist for any limits and any rendering of scalars |
| ClosureValues.FrameReads | src/eval.rs:4340-4385 | In a call the last parameter of a name is its argument, the function is there under its own name unless a parameter took it, and any other name is the captured or else the global variable |
| ClosureValues.DefinitionBinds | src/eval.rs:3412-3450 | A definition binds its name to a new function, which holds the cells that its names have just then, and hides no other variable |
| ClosureValues.InsertEnters | src/value.rs:1202-1243 | Entering a key keeps a dictionary sorted, makes it larger only for a new key, and changes what is read under that key and no other |
| ClosureValues.EntryReadsBack | src/builtin_core.rs:184-221 | An assignment under a key succeeds exactly within the limits on size and nesting; then the value is read back, and every other key reads as before |
| ClosureValues.LiteralSorted | src/eval.rs:3786-3806 | A dictionary literal has its keys in order, each once |
| ClosureValues.FStringGrows | src/eval.rs:3891-3910 | An f-string is the text of its pieces, one after the other |
| ClosureValues.FunctionsEqual | src/value.rs:825-830 | Functions are equal exactly when they are one function value |

## Left out

- Preservation.CompilationPreservesMeaning: requires that no name is a hidden loop local and that `while` conditions contain no call; both are needed, see `Divergence`. It covers `print` and no other builtin, and no floats, dictionaries, f-strings, function definitions or calls, whose lowering needs the machine's globals and frames; closures are covered by `Captures` and `CapturePreserved` instead. The fuel that the engines charge for equality and for displaying a value is not in either run; `Equality.ValuesEqual` has the former on its own. A host's largest collection has at most 2^63 - 1 elements, which `FitAll` asks for.
- Preservation.CompilationPreservesMeaning: for a misplaced `break` or `continue` the compiler refuses the program before running it, the tree evaluator fails when it gets there; only the former is stated, by `Compiling.Compiler.Compile`.
- Equality.EqualIsStructural: requires one side to hold no NaN; `Equality.StructuralIff` and `Equality.StructuralForAllIff` say what holds without that. Finite floats are reals.
- Ledger.BudgetLedger.Charge: one method for all charge functions, with the resources of each; cancellation and the clock are parameters, and a resource's limit is a parameter map.
- AuditEncoding.EnvelopesPrefixFree: says nothing about the clock of a deadline, which is not encoded; so do AuditWriters.EncodedPrefixFree and AuditReader.EncodedReadsBack. Maps are lists of entries, of which the source writes the ones in key order.
- AuditWriters.PassesAgree: speaks of envelopes whose strings and lists have fewer than 2^64 elements; longer ones do not exist on a 64-bit machine.
- Ticket.NoLostWake: atomic accesses are sequentially consistent, a stronger memory than release and acquire.
- Paths.ParsePath: strings are sequences of characters; only ASCII characters are ever compared.
- CapturePreserved.CapturingLessChangesNothing: compares runs without builtins other than `print`; arithmetic and text of scalars are functions shared by both runs. The shortcut that reads an element in place is not modelled apart from reading it through the value.
- Embedding.ProgramsAlike: asks that the variable of a `catch` be mentioned nowhere, because faults in `Closures` carry no lines for it to tell; for a call it also asks that the body call no function by name, its own included.
- Closures: a variable always has a cell; the branch that finds none is there to make the functions total.
- AstWalks.AstClosureBodySizes: identities of bodies are numbers in the tree; that equal numbers carry equal bodies is a premise of `Ownership.EveryBodyOnce`, as pointer identity guarantees.
- The heap and string budgets of both engines, collection and nesting limits other than those in `Lang`, and error texts: each run carries the cause and the line of a fault only.
- Incremental compilation for the interactive prompt, program depth validation, imports and linking.
- The step and fuel resets, restored counters and replaced configurations of the ledger, which break its counters on purpose.
- Yielding and resuming of host calls, re-entry guards and test sinks of the audit module.
- Redaction, keyed hashes and hashed identifiers.
- Directory handles, symbolic links and every call to the platform.
- Formatting of dates beyond their numbers.
