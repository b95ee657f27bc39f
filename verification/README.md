# A verified model of the rule-execution kernel

This project models the deterministic kernel of the crate `crates/tcb` in Dafny and proves the
properties it is built for: that execution ends and respects its limits, that the audit chain is
append-only and tamper evident, that hashing is canonical, exactly which queued instructions
run and in what order, and that auditing does not disturb what it observes.

States are values as in the program: `__exec__` and `__audit_chain` are fields that every step
parses and writes back, reserved keys can be reached by paths, and malformed values take the
branches they take in the code. Checking: `dafny verify dfyconfig.toml`.

## How it is laid out

- `Values`, `Store`, `References`, `Domains`, `ExecContext`: values, the path store, `$ref` and
  `$pass`, conditions, and the typed view of `__exec__`.
- `Comparisons`: the relational operators by what they mean.
- `Encoding`, `Decoding`, `Audit`: the canonical encoding, a reader for it, audit records and
  chains. SHA-256 and HMAC are parameters (section 2 of RFC 2104 for the latter); freedom from
  collisions is a hypothesis where it is needed, and nowhere else.
- `Lcg`, `StableSorts`, `Rules`: the random number generator and the rule collection.
- `Control`, `Machine`, `Engine`: the control context, the primitives as functions on states, and
  the interpreter as mutually recursive functions. `Engine` is the specification: its
  postconditions are the bounds on depth, count and clock.
- `Interpreter`: the same interpreter as methods on a context object updated in place, with the
  loops of the program, each proved to compute the function of the same name.
- `Guards`, `Steps`, `Fallback`, `Soundness`: conditions on programs that every step hands on, what
  each primitive does to chain and configuration, when the fallback ends, and the induction over
  whole executions.
- `Timestamps`, `Messages`: what expansions do to the order of timestamps, and error messages.
- `Loops`, `Conditions`: the truncation flag and what it says about the condition.
- `QueueMachine`, `Drains`, `Fifo`, `Aliases`: the queue by itself, the drain, whole runs of the
  self-driving loop, and the usual loop and aliases as instances.
- `Queues`, `Traces`, `Records`, `Merging`: the queue primitives, what trace steps record, and the
  branches of parallel execution and their merge.
- `Expansions`, `Dispatching`, `WhileLoops`, `Attempts`, `Parallels`, `Sequences`: what `execute` does
  with an unregistered type and with each control primitive, told by the parameters as they are
  written and not by the functions that compute it.
- `Twins`, `Observation`: the simulation between an audited and an unaudited run.
- `Programs`: the conditions on programs under which all this holds, and `state_set` as a
  primitive that meets them.

A registry maps types to the engine's own primitives or to leaf primitives, which stand for all
others: arbitrary functions of state and instruction. Results that need a leaf to keep off the
reserved fields say so as a hypothesis (`LeavesKeep`, `LeafBlind`). A guard is a condition on what
stands under the keys through which programs name paths, directly or by a reference to a field
that is under the same condition; the main results hold for any guard of their kind, and
`ErrorPlaces`, `WritePlaces` and `Reserved` in `Programs`, each for whatever names a program keeps
its paths under, are the three to have in mind. Whether an instruction was ever refused for
a limit, and whether one was ever expanded by the fallback, are history variables of the context,
which the program does not have.

## Where code and documentation differ

The model follows the code. The lemma that shows it stands after each point.

- Parallel execution under "fail_fast" succeeds with the branches before the first failure; the
  comment at `crates/tcb/src/primitive/error_ops.rs:146` says it returns the error
  (`Merging.FailFastFailsExactly`).
- `error_attr` may name a place in `__audit_chain`, so the chain is append-only only for programs
  that do not aim errors there (`Messages.MessageKeepsChainExactly`).
- Timestamps need not increase in runs with an expansion by the fallback, which is stamped by
  another clock than trace steps: either append can break the order
  (`Timestamps.TracedThenExpanded`, `Timestamps.ExpandedThenTraced`).
- A loop that was cut off is said to have its condition still true; for a condition that refers
  to a business field it need not be (`Conditions.StillHoldsExactly`).
- The queue is documented as strictly first in, first out
  (`docs/developer-guide/design-decisions/mechanism-exemption.json:84`). That holds exactly
  as long as nothing is enqueued but in the first turn, the third, the fifth and so on; otherwise
  instructions are taken off the queue and never dispatched (`Fifo.LoopIsFirstInFirstOut`,
  `Fifo.EnqueuedSurvivesExactly`).
- Any rewrite of `__exec__` fills in all fifteen fields. From then on the default instruction
  falls back to null and not to noop (`Drains.RewritingDisablesDefault`), a trace step without a
  dispatch records empty hashes and not those of the state (`Traces.UndispatchedHashes`), and an
  absent table of cases counts as an empty one (`Queues.FirstPushBringsTheTable`).
- Metadata of an expanded instruction is written under a name that the typed record drops
  (`Fallback.MetadataIsDropped`).
- The trace step's own fallback hash leaves out three system fields and not the four of
  `business_state_snapshot` (`Traces.UndispatchedHashes`).
- The comment on the drain says a meta-instruction that is current with an empty queue is left to
  dispatch; the code advances past it (`Drains.IdleDrains`).
- The limits of depth and budget do not see the fallback, which calls itself without entering a
  level (`Fallback.SelfCaseDiverges`).
- Try-catch without a `try` parameter is an error; the comment at
  `crates/tcb/src/primitive/error_ops.rs:86` says it returns the state (`Attempts.NoAttemptFails`).
- A malformed handler makes try-catch fail although the error was caught
  (`Attempts.MalformedHandlerFails`).

## Model

| member | source | states |
|---|---|---|
| Engine.Execute | crates/tcb/src/instruction/registry.rs:317-384 | Every call comes to an end or is the divergence of the uncounted fallback; on success and on failure alike depth is what it was at entry, limits are unchanged, the count has grown and never passes its limit, the clock has moved by at most one tick per instruction entered, and success has spent budget |
| Engine.RunBranches | crates/tcb/src/primitive/error_ops.rs:189-213 | Branches share one context; running all of them keeps the same bounds on depth, count and clock |
| Engine.Drain | crates/tcb/src/control/while_loop.rs:186-327 | The drain ends although its meta-instructions may enqueue more, because every round it continues spends budget; the same bounds on depth, count and clock hold |
| Engine.Loop | crates/tcb/src/control/while_loop.rs:49-172 | The loop ends under the budget and its own limit, with the same bounds |
| Engine.SettleStep | crates/tcb/src/instruction/registry.rs:332-384 | One expansion by the fallback does not change where the fallback comes to, nor whether it comes to anything |
| Fallback.FallbackEndsExactly | crates/tcb/src/instruction/registry.rs:344-384 | Where the types of the cases depend on nothing the fallback changes, the fallback from an instruction ends exactly when following the table from its type ends within as many steps as the table has cases; malformed cases end it |
| Fallback.BusinessTypesAreFixed | crates/tcb/src/control/dispatch.rs:340-374 | That is so of tables whose types are written out or are references to business fields |
| Fallback.WalkEndsWithinTable | crates/tcb/src/instruction/registry.rs:344-384 | A walk through the table that ends visits no type twice, so it takes no more steps than the table has cases |
| Soundness.AllRunsEndExactly | crates/tcb/src/instruction/registry.rs:317-384 | For any table at all: every instruction comes to an end in every state that has it, nested execution included, exactly when the fallback by itself always does |
| Soundness.EveryRunEndsExactly | crates/tcb/src/instruction/registry.rs:317-384 | With types written out, a single state decides it: all its instructions come to an end exactly when the table leads from every type to a registered type, to an unknown one or to a refused nested dispatch |
| Fallback.SelfCaseDiverges | crates/tcb/src/instruction/registry.rs:378 | An unregistered type whose case has that same type is expanded for ever: neither limit stops it |
| Fallback.MetadataIsDropped | crates/tcb/src/instruction/registry.rs:830-835 | The metadata of an expanded instruction is written under a name the typed record does not have: nothing of it is left |
| Soundness.ExecuteIsSound | crates/tcb/src/instruction/registry.rs:317-384 | The induction behind the next results, for any guard and any program: a successful execution keeps the configuration, continues the chain, keeps each clock increasing, and the context's clock alone where nothing was expanded |
| Soundness.ChainIsAppendOnly | crates/tcb/src/primitive/audit_ops.rs:230-262 | Whatever a program does - nested loops, sequences, try-catch, both merges, fallback - the chain before is a prefix of the chain after, and every record added verifies and links to the hash before it, whatever the chain before was worth; a well-formed chain stays well formed, and the configuration in `__exec__` is as before |
| Soundness.TimestampsIncrease | crates/tcb/src/primitive/audit_ops.rs:230-262 | In every run in which nothing is expanded, whatever the table, timestamps strictly increase along the chain and stay below the clock of the context |
| Soundness.RegisteredTableNeverExpands | crates/tcb/src/instruction/registry.rs:338-344 | Under a table of registered types no run expands anything |
| Timestamps.DispatchedAliasIsNotExpanded | crates/tcb/src/control/dispatch.rs:173-204 | Dispatching an unregistered type to a case that is a registered leaf expands nothing |
| Soundness.EachClockIncreases | crates/tcb/src/instruction/registry.rs:875-917 | In any run, with expansions: every record is stamped by the context's clock or, if it is an expansion, by the chain's own, and the records of each clock strictly increase among themselves |
| Timestamps.ExpansionKeepsOrderExactly | crates/tcb/src/instruction/registry.rs:875-917 | The record of an expansion keeps all timestamps increasing exactly when the chain's own clock is past the last of them |
| Timestamps.TraceKeepsOrderExactly | crates/tcb/src/primitive/audit_ops.rs:230-262 | The record of a trace step keeps them increasing exactly when the clock of the context is past the last of them |
| Timestamps.TracedThenExpanded | crates/tcb/src/instruction/registry.rs:875-917 | A trace step that begins a chain and then one expansion always break the order, the expansion being the one out of order |
| Timestamps.ExpandedThenTraced | crates/tcb/src/primitive/audit_ops.rs:230-262 | An expansion that begins a chain and then one trace step break it, at the trace step, wherever the clock of the context is not past the chain's own |
| Timestamps.AliasStateIsAnExample | crates/tcb/src/instruction/registry.rs:875-917 | A concrete state, table and registry on which they do |
| Timestamps.EmptyChainStateIsAnExample | crates/tcb/src/primitive/audit_ops.rs:230-262 | The same with an empty chain in place, where the trace step comes second |
| Messages.MessageKeepsChainExactly | crates/tcb/src/primitive/error_ops.rs:117 | For every path: a message written as a string keeps a well-formed chain, with its records, links and hashes, exactly when the path leads elsewhere, or to a place in the chain where the write is harmless: a field that is not read, the chain's own clock, an absent optional text, or the text that stands there anyway |
| Messages.RecordKeptExactly | crates/tcb/src/audit.rs:345-402 | What is read from a record stays the same exactly for such writes |
| Messages.NoChainFromMessages | crates/tcb/src/primitive/error_ops.rs:117 | Where there is no chain no message makes one |
| Messages.FailedAttemptKeepsChainExactly | crates/tcb/src/primitive/error_ops.rs:114-128 | A failed attempt without a handler, or with one that fails as well, keeps the chain exactly when its `error_attr` is such a place |
| Messages.ErrorCanReplaceChain | crates/tcb/src/primitive/error_ops.rs:102-118 | Concrete counterexample: `error_attr` naming `__audit_chain` makes try-catch throw the chain away |
| Messages.FailureLeavesOnlyMessage | crates/tcb/src/primitive/error_ops.rs:114-128 | After such an attempt, wherever it and the handler may have written, every location off the place of the message reads as it did before: under every other field for any place led by a key, and off the path itself where the write has a shape to land on |
| Steps.TraceSteps | crates/tcb/src/primitive/audit_ops.rs:115-263 | A trace step appends exactly one record, keeps the chain well formed, and is stamped with the clock it moves on |
| Steps.RecordExpandSteps | crates/tcb/src/instruction/registry.rs:852-917 | The record of an expansion is appended and linked the same way |
| Steps.AdvanceSteps | crates/tcb/src/primitive/queue_ops.rs:120-161 | Advancing keeps configuration and chain |
| Steps.MergeSteps | crates/tcb/src/primitive/error_ops.rs:226-301 | The force merge keeps configuration and chain of the initial state, whatever the branches did to theirs |
| Guards.ResolutionIsSane | crates/tcb/src/control/dispatch.rs:340-374 | A condition on all fields of a state and a value holds of all fields of the resolved value |
| Guards.RestrictingIsGuard | crates/tcb/src/control/dispatch.rs:340-374 | Any condition on the paths under given keys that lets references among fields of a kind pass survives resolution: what stands there meets it already |
| Guards.WriteIsSane | crates/tcb/src/state.rs:364-536 | Such a condition survives a write along a path outside the guarded keys |
| Expansions.ExecutesItsCase | crates/tcb/src/instruction/registry.rs:344-384 | Executing an unregistered type is executing its case, whatever was current before: in the state in which the instruction is current and its expansion recorded, with each parameter as the case writes it or, where it refers to `__exec__.instruction.params`, as the instruction gives it, and with null where it gives none |
| Expansions.LeafRunsFilledIn | crates/tcb/src/instruction/registry.rs:344-384 | A case of a registered leaf type runs that leaf once, with just these parameters |
| Expansions.UnknownAndNestedFail | crates/tcb/src/instruction/registry.rs:344-377 | A type that is neither registered nor in the table is unknown, and one whose case is a dispatch is refused |
| Expansions.SetIsReadBack | crates/tcb/src/control/dispatch.rs:405-414 | End to end: after the usual `set` alias is executed by itself the state reads the value at the name, and no other business field differs |
| Attempts.SuccessIsTheAttempt | crates/tcb/src/primitive/error_ops.rs:112-115 | A try-catch whose attempt succeeds ends in exactly the state the attempt ends in, on the count and clock of the attempt and one more entry; neither the handler nor the place for the message matters |
| Attempts.AttemptedIsReadBack | crates/tcb/src/primitive/error_ops.rs:112-115 | End to end: what a succeeding `state_set` attempt writes is read back after the try-catch |
| Attempts.HandlerSeesMessage | crates/tcb/src/primitive/error_ops.rs:116-129 | Where the attempt fails the handler is executed on the initial state with nothing but the message added; its result counts if it succeeds, and the state with the message otherwise |
| Attempts.NoAttemptFails | crates/tcb/src/primitive/error_ops.rs:93-100 | Without an attempt, or with one that is no instruction, the call fails |
| Attempts.MalformedHandlerFails | crates/tcb/src/primitive/error_ops.rs:119-123 | A handler that is no instruction makes the call fail although the error was caught |
| Attempts.MessageIsReadBack | crates/tcb/src/primitive/error_ops.rs:102-118 | Without a handler the message is read back at its place, `__error__` unless another is named |
| Dispatching.DispatchRunsNamedCase | crates/tcb/src/control/dispatch.rs:127-204 | A dispatch, with cases of its own or with the engine's table, executes the case its key names, resolved, or its default, or nothing; the key names itself if it is a string, "true", "false", "null", or its decimal text; what the dispatch adds is the hashes around the case, its name and one queued advance |
| Store.IntegersAreSpelled | crates/tcb/src/value.rs:336 | The decimal text of an integer, as dispatch keys have it: a minus sign if it is negative, then its digits without leading zeros |
| Dispatching.NothingToDispatch | crates/tcb/src/control/dispatch.rs:127-150 | Without a key, or with cases that are no table, nothing is dispatched |
| Dispatching.FlagSelects | crates/tcb/src/control/dispatch.rs:127-204 | End to end: a dispatch on a Boolean field assigns what the case of that name says |
| WhileLoops.UnmetRunsNothing | crates/tcb/src/control/while_loop.rs:74-90 | A loop whose condition is not met at first - the running flag, a literal, a reference or a domain - runs nothing and returns the state as it was, unflagged |
| WhileLoops.MetRunsBody | crates/tcb/src/control/while_loop.rs:74-111 | Where it is met, the first instruction of the body is executed on that very state: if it is malformed, fails or diverges, so does the loop |
| WhileLoops.MalformedFails | crates/tcb/src/control/while_loop.rs:351-356 | A condition with a type that is no domain makes the loop fail with the error of its parsing |
| WhileLoops.DomainDecides | crates/tcb/src/control/while_loop.rs:344-361 | For a domain nested at most 128 deep its Boolean meaning in the initial state decides between the two |
| WhileLoops.DomainLoopRuns | crates/tcb/src/control/while_loop.rs:49-169 | A loop over such a domain began each of its turns in a state of the domain; short of its limit it ends in a state off the domain, unless it has no body or the engine stops, and is then not flagged |
| WhileLoops.RunsWhileMet | crates/tcb/src/control/while_loop.rs:49-169 | The same for any condition that is always met or not met |
| WhileLoops.SettingsAreRead | crates/tcb/src/control/while_loop.rs:368-406 | Auditing, tracing of meta-instructions and the types of these are for the whole loop what the record says when it begins |
| WhileLoops.DrainStops | crates/tcb/src/control/while_loop.rs:196-217 | The drain stops where it is if the queue is no list, or is not empty and the engine is not running |
| WhileLoops.DrainLands | crates/tcb/src/control/while_loop.rs:218-295 | A business instruction at the head of the queue becomes current, marked as popped; with an empty queue a current one stays; a trace step follows if auditing is on |
| WhileLoops.DrainAdvances | crates/tcb/src/control/while_loop.rs:296-327 | With neither, the drain executes one advance and then the trace step |
| WhileLoops.DrainRunsMeta | crates/tcb/src/control/while_loop.rs:218-260 | A meta-instruction at the head is taken off, marked as the source, executed, traced only where that is asked for, and the drain goes on |
| Sequences.SequenceRuns | crates/tcb/src/primitive/queue_ops.rs:275-316 | A sequence executes its typed instructions in order, each on the state the one before left, and ends with the first that does not succeed; items without a type are passed over |
| Sequences.AllAreRun | crates/tcb/src/control/while_loop.rs:92-111 | So does the body of a loop, where an item without a type is an error |
| Sequences.NoSequence | crates/tcb/src/primitive/queue_ops.rs:275-295 | Without instructions nothing is done, and anything but a list of them is an error |
| Parallels.FailFastJoins | crates/tcb/src/primitive/error_ops.rs:153-311 | Under "fail_fast", which is the default, the branches run one after the other on the initial state and one context up to the first that does not succeed; the results are joined, and without any the error is that of the first branch |
| Parallels.ContinueJoins | crates/tcb/src/primitive/error_ops.rs:153-311 | Under any other strategy all branches run and the results of those that succeed are joined; without any the error is that of the last branch |
| Parallels.ForceMergeMerges | crates/tcb/src/primitive/error_ops.rs:226-301 | The force merge leaves each field but six with the value of the last branch that differs in it, the sign of zeros apart, and notes branch and total for exactly these fields |
| Parallels.BothAreMerged | crates/tcb/src/primitive/error_ops.rs:226-301 | End to end: what two branches assign to different fields is all read back after the force merge, and no other field but the provenance has changed |
| Parallels.NoBranchesFail | crates/tcb/src/primitive/error_ops.rs:159-187 | Missing branches, or anything but a list of them, are an error |
| Queues.AdvanceRuns | crates/tcb/src/primitive/queue_ops.rs:120-161 | An advance takes the first instruction off the queue; with nothing to take the default instruction, or noop, becomes current, and the engine stops if the termination domain is met then |
| Queues.PushRuns | crates/tcb/src/primitive/queue_ops.rs:176-194 | A push puts its instruction behind all that waits and changes nothing else, or fails if a table is in place and the type is neither registered nor in it |
| Queues.PushSequenceRuns | crates/tcb/src/primitive/queue_ops.rs:211-246 | A sequence of them is put there as it stands, or not at all |
| Records.TraceStepRuns | crates/tcb/src/primitive/audit_ops.rs:115-263 | A trace step leaves its one record, field by field: rule, time, summary, identifier, nonce, link, version and signature, and the chain's hashes and times; with auditing switched off it does nothing and takes no tick |
| Records.NoChainIsEmpty | crates/tcb/src/audit.rs:430-443 | Without a readable chain the record begins one that links to 64 zeros |
| Records.PositionIsIdentified | crates/tcb/src/audit.rs:122-150 | Without collisions identifier and nonce each determine the hash linked to and the tick |
| Loops.FlagMeansAllTurnsCompleted | crates/tcb/src/control/while_loop.rs:74-169 | The returned state carries `__terminated_by_max_steps` true exactly when all `max_steps` turns were completed; otherwise a turn before the limit ended the loop and the state is that turn's |
| Loops.FlagMeansCouldGoOn | crates/tcb/src/control/while_loop.rs:141-147 | Without a condition of its own, the flag is true exactly when the engine still runs and the loop has a body, and then its condition still holds |
| Conditions.StillHoldsExactly | crates/tcb/src/control/while_loop.rs:141-147 | For every condition that is not a domain, over all runs from all states: being flagged as cut off implies that the condition still holds, unless it is a reference to something else than the engine's record, its running flag or the truncation flag; then some loop is flagged with it false |
| Conditions.CutOffWithConditionFalse | crates/tcb/src/control/while_loop.rs:143-147 | The loop that shows it, for any condition, domains included, that holds of some state but not of a blank one: it is flagged and its condition is false |
| Conditions.DefaultStillHolds | crates/tcb/src/control/while_loop.rs:344-346 | Without a condition of its own a loop that is flagged can always go on |
| Traces.LimitAsGiven | crates/tcb/src/control/while_loop.rs:57-63 | A limit from 0 to 100000 is taken as given, a larger one cut off, a negative one turned into more than 2^63 |
| QueueMachine.DispatchedAreSurvivors | crates/tcb/src/control/while_loop.rs:186-327 | For whatever cases enqueue: a run of the queue machine dispatches the current instruction and then exactly the survivors of all that is ever queued, where each advance takes the instruction behind it along |
| QueueMachine.NothingIsLostExactly | crates/tcb/src/control/while_loop.rs:218-268 | It dispatches everything ever queued, once and in order, exactly when an even number of advances stands in front of each instruction |
| QueueMachine.RunIsInOrderExactly | crates/tcb/src/control/dispatch.rs:192-202 | Over waiting instructions with advances pending behind them that is so exactly when only every other turn enqueues anything: the first, third and so on where the advances are even in number, and the second, fourth and so on where they are odd |
| QueueMachine.TakesNextExactly | crates/tcb/src/control/while_loop.rs:196-268 | Behind pending advances the first instruction becomes current with the rest queued exactly when they are even in number or nothing comes after it |
| Drains.DrainRuns | crates/tcb/src/control/while_loop.rs:186-327 | On any queue of advances and business instructions the drain of the engine ends where the queue machine says, changes no business field, and records the hashes of the last dispatch once, or once more for each advance |
| Drains.DrainTakesNextExactly | crates/tcb/src/control/while_loop.rs:196-268 | So of the engine too: the first business instruction behind pending advances becomes current, with the rest queued, exactly when they are even in number or nothing comes after it |
| Drains.DrainStopsAtFirstBusiness | crates/tcb/src/control/while_loop.rs:186-327 | With other meta-instructions ahead of the first business one the drain executes exactly these, once and in order, makes that one current and leaves the rest queued, and behind it what they enqueued |
| Drains.DrainKeepsCurrentBusiness | crates/tcb/src/control/while_loop.rs:269-295 | With only such meta-instructions queued, enqueuing nothing, they all run and a current business instruction stays current |
| Drains.RewritingDisablesDefault | crates/tcb/src/primitive/queue_ops.rs:128-141 | With no default instruction configured, the fallback to noop works only until `__exec__` is first rewritten; from then on null is injected |
| Fifo.LoopRunsQueue | crates/tcb/src/control/while_loop.rs:49-172 | A whole run of a self-driving loop ends as the queue machine does after as many turns, for any cases: at rest and not flagged, or cut off and flagged with the next job in place; its business fields are those of the machine |
| Fifo.LoopDispatchesSurvivors | crates/tcb/src/control/while_loop.rs:49-327 | A run that comes to rest has dispatched the current instruction and the survivors of all that was ever queued, and nothing else: its business fields are the fold of just their deeds |
| Fifo.LoopIsFirstInFirstOut | crates/tcb/src/control/while_loop.rs:49-327 | It dispatches what waited and what was enqueued on the way, each once and in order, exactly when only every other turn enqueued anything; its business fields are then the fold of all their deeds |
| Fifo.QueueRunsInOrder | crates/tcb/src/control/while_loop.rs:74-137 | Where nothing is enqueued, within a budget linear in their number, each of the instructions is dispatched once, in order, and the loop stops, not cut off, with an empty queue |
| Fifo.TurnRuns | crates/tcb/src/control/while_loop.rs:74-137 | The step of that: one turn, with steps ahead of the dispatch and trace steps behind it, does what the machine's turn does |
| Fifo.DispatchRuns | crates/tcb/src/control/dispatch.rs:127-204 | A dispatch on the type of the current instruction runs its case, notes the hashes around it and queues one advance behind what the case enqueued |
| Fifo.EnqueuedSurvivesExactly | crates/tcb/src/control/dispatch.rs:192-202 | What a case enqueues with nothing but advances pending survives the drain after it, first current and the others queued, exactly when these are even in number |
| Fifo.LoopRecordsFold | crates/tcb/src/primitive/audit_ops.rs:189-262 | After a run the new records hold, in order, the hashes of the business fields before and after each instruction dispatched, each pair once for every trace step of the body and once for the drain, or nothing with auditing off |
| Fifo.TrailFollowsFold | crates/tcb/src/primitive/audit_ops.rs:189-262 | The same of the trail that a run leaves whether or not it comes to rest |
| Fifo.UsualDomainsStopAtNoop | crates/tcb/src/primitive/queue_ops.rs:143-154 | Both ways of writing "the current type is noop" meet the hypothesis on the termination domain |
| Fifo.LeafCaseDoes | crates/tcb/src/control/dispatch.rs:173-204 | The hypothesis on cases is met by any case that is resolved to a leaf keeping off `__exec__`, with whatever parameters, where the leaf succeeds |
| Fifo.LeafLeadDoes | crates/tcb/src/control/while_loop.rs:92-111 | That on the steps ahead of the dispatch by any such leaf |
| Fifo.NoLead | crates/tcb/src/control/while_loop.rs:92-111 | And by having none |
| Aliases.UsualLoopIsSelfDriving | crates/tcb/src/control/while_loop.rs:49-111 | The main loop as documented, which notes the current type, dispatches on it and takes a trace step, is one to which all this applies |
| Aliases.UsualLeadDoes | crates/tcb/src/primitive/state_ops.rs:103-128 | Its first step sets one field to the current type and does nothing else |
| Aliases.SetCaseDoes | crates/tcb/src/primitive/state_ops.rs:103-128 | The usual `set` alias meets the hypothesis on cases: each dispatch assigns what its instruction names |
| Aliases.SequenceCaseDoes | crates/tcb/src/primitive/queue_ops.rs:211-246 | So does the usual `sequence` alias: each dispatch enqueues the list in its instruction |
| Queues.RefusedMeansUnknown | crates/tcb/src/primitive/mod.rs:156-183 | With a table in place, an instruction is refused exactly when executing it under that table would fail as unknown |
| Queues.PushedIsTakenLast | crates/tcb/src/primitive/queue_ops.rs:176-194 | A pushed instruction becomes current after all that were queued before it |
| Queues.SequenceIsEachOrNone | crates/tcb/src/primitive/queue_ops.rs:211-246 | With a table, queueing a sequence is queueing its items one by one, and nothing at all if one is refused |
| Queues.FirstPushBringsTheTable | crates/tcb/src/primitive/queue_ops.rs:176-194 | Without a table the first push writes an empty one, against which the next unregistered type is refused |
| Traces.LimitByDefault | crates/tcb/src/control/while_loop.rs:57-63 | Without an integer for a limit it is 10000 |
| Traces.DispatchIsRecorded | crates/tcb/src/control/dispatch.rs:270-300 | The trace step after a dispatch records the business hashes before and after the case, links to the chain and carries the clock; dispatching changes no business field beyond the case |
| Traces.UndispatchedHashes | crates/tcb/src/primitive/audit_ops.rs:194-229 | Without a dispatch the whole state is hashed, but only until `__exec__` is first rewritten; from then on both hashes are empty |
| Messages.TryCatchFailsExactly | crates/tcb/src/primitive/error_ops.rs:87-130 | With well-formed branches, try-catch fails exactly when the attempt does and the place for the message is more than 64 segments deep |
| Merging.MergedField | crates/tcb/src/primitive/error_ops.rs:253-293 | Field by field: the value from the last branch that changed it, or the initial value if none did |
| Merging.MergedProvenance | crates/tcb/src/primitive/error_ops.rs:270-298 | Provenance names exactly the changed fields, each with the index of its last writer among the successful branches; the other system fields stay |
| Merging.RemovalIsNotMerged | crates/tcb/src/primitive/error_ops.rs:253-293 | A field that branches remove is back after the merge |
| Merging.MergeByForce | crates/tcb/src/primitive/error_ops.rs:226-301 | The merge as the code performs it, over any order in which the maps are enumerated, is the one function |
| Merging.CollectChanged | crates/tcb/src/primitive/error_ops.rs:253-266 | The changed fields do not depend on the order of enumeration |
| Merging.FindWriter | crates/tcb/src/primitive/error_ops.rs:270-282 | The pass over all branches finds the last writer |
| Merging.FailFastKeepsPrefix | crates/tcb/src/primitive/error_ops.rs:189-213 | Under "fail_fast" the results are those of the branches before the first failure |
| Merging.FailFastFailsExactly | crates/tcb/src/primitive/error_ops.rs:189-224 | Under "fail_fast" the call fails exactly when there is no branch or the first one fails; the doc comment at line 146 promises an error on any failure |
| Merging.ContinueKeepsSuccesses | crates/tcb/src/primitive/error_ops.rs:189-213 | Under "continue" the results are those of all branches that succeed, in order |
| Merging.ContinueFailsExactly | crates/tcb/src/primitive/error_ops.rs:189-224 | Under "continue" the call fails exactly when every branch fails |
| Merging.LastBranchWins | crates/tcb/src/primitive/error_ops.rs:302-309 | Without force the last successful branch is the result, under either strategy |
| Observation.AuditingIsObservationOnly | crates/tcb/src/control/while_loop.rs:245-321 | Switching auditing on or off changes neither outcome nor error nor any field but the chain and the flag, if the audited run meets no limit; the other then meets none either |
| Observation.ExecutesAlike | crates/tcb/src/instruction/registry.rs:317-384 | The simulation: two runs from states alike, the second without auditing, agree step for step |
| Observation.DrainsAlike | crates/tcb/src/control/while_loop.rs:186-327 | The drains agree, although one takes trace steps in between |
| Observation.MergeAlike | crates/tcb/src/primitive/error_ops.rs:226-301 | Force merges of branches alike are alike |
| Twins.ResolutionAlike | crates/tcb/src/control/dispatch.rs:340-374 | Values that keep off the reserved fields resolve to the same in states alike |
| Twins.HashAlike | crates/tcb/src/state.rs:178-192 | The business hash does not see the chain or the flag |
| Programs.AssignmentsKeepChains | crates/tcb/src/primitive/state_ops.rs:103-128 | The hypothesis of the results on chains holds of `state_set`, target and value named directly or by reference, for all programs that do not write to the engine's own fields, whatever they read |
| Programs.AssignmentsMeetTheHypotheses | crates/tcb/src/primitive/state_ops.rs:103-128 | Those of the results on chains and on auditing hold of it for all programs that keep off the reserved fields |
| Programs.SetCaseIsSane | crates/tcb/src/primitive/state_ops.rs:103-128 | Among these are programs with the usual `set` alias, which takes its target from the instruction by reference |
| Programs.ErrorPlacesIsGuard | crates/tcb/src/primitive/error_ops.rs:102-110 | The condition "no message is aimed at the engine's own fields", by a path or by a reference to a field that holds one, is a guard |
| Programs.WritePlacesIsGuard | crates/tcb/src/primitive/state_ops.rs:103-128 | So is the same condition on messages and assignments |
| Programs.ReservedIsGuard | crates/tcb/src/control/dispatch.rs:340-374 | The condition "names no reserved field" is one that resolving references never breaks |
| Interpreter.Execute | crates/tcb/src/instruction/registry.rs:317-329 | On a context updated in place: enter, run, exit; result and context are those of the engine function |
| Interpreter.ExecuteInner | crates/tcb/src/instruction/registry.rs:332-384 | The lookup, and the fallback that calls itself without entering a level |
| Interpreter.RecordStep | crates/tcb/src/primitive/audit_ops.rs:115-263 | One tick is taken and one record pushed in place |
| Interpreter.RecordExpansion | crates/tcb/src/instruction/registry.rs:852-917 | The record of an expansion, stamped with the chain's own clock |
| Interpreter.EnqueueAll | crates/tcb/src/primitive/queue_ops.rs:211-246 | All instructions are checked before the first is queued |
| Interpreter.RunAll | crates/tcb/src/primitive/queue_ops.rs:275-316 | The loop over a sequence computes the fold of the engine function |
| Interpreter.RunDispatch | crates/tcb/src/control/dispatch.rs:127-239 | Dispatch with both hashes and the queued advance |
| Interpreter.RunTryCatch | crates/tcb/src/primitive/error_ops.rs:87-130 | Attempt, message, handler |
| Interpreter.RunBranches | crates/tcb/src/primitive/error_ops.rs:189-213 | The loop that collects results and the last error |
| Interpreter.RunParallel | crates/tcb/src/primitive/error_ops.rs:153-311 | Parallel execution with both strategies and both merges |
| Interpreter.Drain | crates/tcb/src/control/while_loop.rs:186-327 | The drain loop |
| Interpreter.RunLoop | crates/tcb/src/control/while_loop.rs:49-172 | The loop with the bookkeeping of last step and condition from which the code derives the flag |
| Control.ExecCtlCtx.Enter | crates/tcb/src/exec_ctl_ctx.rs:182-202 | Depth is checked before the budget; a refusal changes no counter |
| Control.ExecCtlCtx.Exit | crates/tcb/src/exec_ctl_ctx.rs:206-208 | Leaves a level, never below zero |
| Control.ExecCtlCtx.NextTick | crates/tcb/src/exec_ctl_ctx.rs:240-244 | Returns the tick and moves on |
| Audit.SignedBytesAreInjective | crates/tcb/src/audit.rs:217-276 | The bytes fed to the MAC determine all eleven fields that are signed |
| Audit.StreamHash | crates/tcb/src/audit.rs:217-276 | Feeding the MAC update by update computes the hash of those bytes |
| Audit.TamperEvident | crates/tcb/src/audit.rs:217-296 | With a MAC free of collisions, two linked and verified chains of equal length and last hash are the same in every field of every record |
| Audit.LatestHashDeterminesChain | crates/tcb/src/audit.rs:405-449 | If moreover no signature is the genesis string, the latest hash alone determines the records |
| Audit.AppendExtends | crates/tcb/src/primitive/audit_ops.rs:230-262 | The record appended verifies and links to the latest hash, whatever the chain |
| Audit.ExtensionIsWellFormed | crates/tcb/src/audit.rs:405-449 | What continues a well-formed chain in that way is well formed: linked, verified and consistent with its root and latest hash |
| Audit.AuditChainState.Record | crates/tcb/src/primitive/audit_ops.rs:230-262 | The in-place update of the chain is that appending |
| Audit.AuditChainState.NextTick | crates/tcb/src/audit.rs:445-449 | The chain's clock, which wraps around |
| Audit.RecordRoundTrip | crates/tcb/src/audit.rs:299-402 | A record survives its value form |
| Audit.ChainRoundTrip | crates/tcb/src/audit.rs:452-506 | A chain survives the value form it takes at every step |
| Audit.OnlyClockMayBeMissing | crates/tcb/src/audit.rs:472-506 | Of a stored chain only its clock may be missing, and is then at zero |
| Audit.OnlyTextsMayBeMissing | crates/tcb/src/audit.rs:345-402 | Of a stored record only summary and error message may be missing |
| Audit.ReadRecords | crates/tcb/src/audit.rs:472-479 | The loop over the records accepts all or nothing |
| Encoding.EncodingIsPrefixFree | crates/tcb/src/deterministic.rs:101-153 | No encoding is a proper prefix of another, at any depth |
| Encoding.SameBytesIffAgreeing | crates/tcb/src/deterministic.rs:74-153 | Two sequences of values are hashed as the same bytes exactly when they agree element by element down to depth 128 |
| Encoding.ShallowEncodingIsInjective | crates/tcb/src/deterministic.rs:83-153 | Up to 128 levels of nesting the encoding is injective, down to float bits |
| Encoding.Utf8IsInjective | crates/tcb/src/deterministic.rs:124-129 | UTF-8 determines the string |
| Decoding.ContentIsRead | crates/tcb/src/deterministic.rs:74-153 | What is hashed can be read back: a reader that fixes the format by tags, byte orders, lengths and UTF-8 returns every sequence of values nested at most 128 deep |
| Values.EnumerationOrderIsIrrelevant | crates/tcb/src/value.rs:106-111 | Sorted enumeration is one and the same sequence whatever order the map hands its entries over in |
| Values.SortedKeysAreOrdered | crates/tcb/src/value.rs:106-111 | It lists each key once, in order |
| Values.InstructionRoundTrip | crates/tcb/src/rule.rs:90-131 | An instruction survives its value form, except that null metadata comes back as an empty object |
| Values.InstructionsHaveTypes | crates/tcb/src/rule.rs:90-113 | Whatever has a text for a type is an instruction, and nothing else |
| ExecContext.FlagsByDefault | crates/tcb/src/exec_context.rs:138-215 | Running and auditing are on unless switched off; tracing of meta-instructions and truncation are off unless switched on |
| ExecContext.NothingByDefault | crates/tcb/src/exec_context.rs:138-215 | What the engine goes by where there is no record |
| ExecContext.RoundTrip | crates/tcb/src/exec_context.rs:138-259 | All fifteen fields of `__exec__` survive the rewriting made at every step |
| Lcg.FullPeriod | crates/tcb/src/deterministic.rs:249-256 | Two draws from a seed are equal exactly when their positions differ by a multiple of 2^64 |
| Lcg.EveryWordExactlyOnce | crates/tcb/src/deterministic.rs:249-256 | From any seed, 2^64 draws return each 64-bit word exactly once |
| Lcg.StepIsInjective | crates/tcb/src/deterministic.rs:249-256 | Different states have different successors |
| Lcg.StepIsSurjective | crates/tcb/src/deterministic.rs:249-256 | Every word is the successor of some state |
| Lcg.DeterministicRNG.NextU64 | crates/tcb/src/deterministic.rs:249-256 | The state moves on by one draw, which is returned |
| Lcg.DeterministicRNG.Shuffle | crates/tcb/src/deterministic.rs:285-292 | The shuffle in place is the Fisher-Yates function of the state, spends one draw per position but the first, and keeps the elements |
| Lcg.EveryArrangementOnce | crates/tcb/src/deterministic.rs:285-292 | Every arrangement of different elements comes of exactly one sequence of picks, and a shuffle makes it exactly when these are its draws modulo the numbers of positions |
| Lcg.KnownOutputs | crates/tcb/src/deterministic.rs:249-256 | The first outputs for two seeds, which fix both constants |
| Lcg.ShuffleKeepsElements | crates/tcb/src/deterministic.rs:285-292 | Shuffling permutes |
| Store.ReadsBackExactly | crates/tcb/src/state.rs:293-536 | A path reads back every value written to it exactly when path and state have a writable shape |
| Store.KeyLedPathsAreWritableOnFreshKeys | crates/tcb/src/state.rs:364-496 | Paths led by a key and without two indexes in a row have that shape wherever nothing is there yet |
| Store.DivergingLocationsKeptExactly | crates/tcb/src/state.rs:364-496 | On such paths every location that diverges from the written one keeps its value, whatever is written, exactly when the path leads through no list inside a list |
| Store.OtherReadsAreKept | crates/tcb/src/state.rs:332-362 | Reading along another path is not disturbed by the write |
| Store.WriteKeepsDivergingLocations | crates/tcb/src/state.rs:364-536 | The same for any writable shape, indexes compared as numbers |
| Store.NestedListIsReplaced | crates/tcb/src/state.rs:433-466 | Concrete example of a nested list that a write loses |
| Store.UnchangedVersionMeansUnchangedData | crates/tcb/src/state.rs:332-536 | The version moves by at most one, and an unchanged version means unchanged data |
| Store.IndexLedWrite | crates/tcb/src/state.rs:479-536 | A path that begins with an index writes into the only list there is, over an element or, if it ends there, past the last one; into nothing it makes a list; otherwise it writes nothing |
| Store.KeyIntoListIsDropped | crates/tcb/src/state.rs:433-466 | A key below a list writes nothing |
| Store.ShortAndLongPaths | crates/tcb/src/state.rs:332-362 | A path of one segment is a key whatever it looks like; more than 64 segments are refused |
| Store.SplitOfPath | crates/tcb/src/state.rs:585-624 | So does writing segments with dots or in brackets, where a dot is part of the name, in any mixture |
| Store.IndexesExactly | crates/tcb/src/state.rs:364-536 | A segment is an index exactly if it is a plus sign or none and then digits whose number fits a word, leading zeros or not |
| Store.IndexesAreDecimal | crates/tcb/src/state.rs:364-536 | Decimal texts are the indexes they name, with or without a plus sign, as long as they fit a word |
| Store.SplitOfDotted | crates/tcb/src/state.rs:585-624 | Joining plain segments with dots and splitting gives the segments |
| Store.Split | crates/tcb/src/state.rs:585-624 | The scanning loop computes the recursive split |
| Store.ReadPath | crates/tcb/src/state.rs:293-323 | The loop along a path computes the recursive walk |
| Store.Pad | crates/tcb/src/state.rs:412-470 | The padding loop fills up with nulls to just past the index |
| References.NormalFormExactly | crates/tcb/src/control/dispatch.rs:340-374 | No output of resolution holds a single-key `$ref` object at any depth, cycles included, exactly when the passed parameters hold none |
| References.ResolvingTwiceIsResolvingOnce | crates/tcb/src/control/dispatch.rs:340-374 | Without `$pass`, resolving again, in any state, changes nothing |
| References.BoundedRefinesUnbounded | crates/tcb/src/control/dispatch.rs:311-374 | Where unbounded resolution takes at most 64 levels the bounded function returns its result |
| References.ResolutionIsDeterministic | crates/tcb/src/control/dispatch.rs:340-374 | Unbounded resolution has one result |
| References.ChainResult | crates/tcb/src/control/dispatch.rs:340-357 | A chain of references ends at its first other value if that is at most 64 hops away, and in null otherwise |
| References.PassHandsOn | crates/tcb/src/control/dispatch.rs:434-456 | `$pass` hands on a parameter of the current instruction as it stands, or null, and all of them under an empty name |
| References.RefStandsFor | crates/tcb/src/control/dispatch.rs:384-414 | `$ref` stands for the value at its path, for the whole state if that is empty, and for null if nothing is there |
| References.CycleIsNull | crates/tcb/src/control/dispatch.rs:340-357 | A cyclic chain resolves to null |
| Domains.ContainsDecidesMeaning | crates/tcb/src/domain.rs:200-252 | Up to 128 levels of nesting evaluation decides the unbounded Boolean meaning |
| Comparisons.StringsAreOrdered | crates/tcb/src/domain.rs:141-152 | On strings gt, ge, lt and le hold exactly when the lexicographic order says so |
| Comparisons.IntegersAreOrdered | crates/tcb/src/domain.rs:506-523 | On integers they do wherever the float operations order the two operands as integers are ordered |
| Comparisons.NumbersAreOrdered | crates/tcb/src/domain.rs:506-523 | On numbers in general they are what the float operations say, and nothing is ordered with a value of another kind |
| Comparisons.EqualityDecides | crates/tcb/src/domain.rs:141-144 | eq is equality with what is present, up to the sign of zeros, and ne its complement in every state |
| Comparisons.NegationsAreComplements | crates/tcb/src/domain.rs:159-164 | not_in, not_contains and not_between are the complements of the others where something is present, and hold of nothing else |
| Comparisons.MembershipDecides | crates/tcb/src/domain.rs:531-549 | contains and in are membership in a list |
| Comparisons.PlainMembership | crates/tcb/src/domain.rs:531-549 | For values other than numbers, negative zeros apart, it is membership in the sequence of items |
| Comparisons.IntervalDecides | crates/tcb/src/domain.rs:551-575 | between holds of numbers from the first bound to the second, both included |
| Comparisons.IntegersBetween | crates/tcb/src/domain.rs:551-575 | On integers that is so of the integer order, under the same hypothesis |
| Comparisons.PresenceDecides | crates/tcb/src/domain.rs:212-233 | An absent attribute satisfies exactly ne and not_exists; a present one satisfies exists and not not_exists |
| Comparisons.TypeDecides | crates/tcb/src/domain.rs:237-247 | An instruction domain holds exactly when the current type is that string |
| Comparisons.PartsDecide | crates/tcb/src/domain.rs:234-250 | and, or and not are what they say of their parts, and the universal and empty domains hold always and never |
| Comparisons.OperatorsAreNamed | crates/tcb/src/domain.rs:94-137 | Each of the sixteen names, `has` and `lacks` included, is that of its operator |
| Comparisons.BeforeIsLexicographic | crates/tcb/src/value.rs:106-111 | The order of keys and strings is the lexicographic one |
| Comparisons.SameUpToZeros | crates/tcb/src/value.rs:395-406 | Values are equal exactly when nothing but the sign of float zeros tells them apart |
| Domains.StringsAreTypes | crates/tcb/src/domain.rs:601-625 | A string is an instruction type, but for "universal" and "empty" |
| Domains.OtherForms | crates/tcb/src/domain.rs:255-353 | "never" is empty, an instruction has its type under either name, and only exists and not_exists need no value |
| Domains.PartsAreSomewhere | crates/tcb/src/domain.rs:300-336 | The list form of and and or goes before the left/right form, and with neither the parts are missing |
| Domains.DepthBoundIsTight | crates/tcb/src/domain.rs:200-252 | From 129 levels on it does not: nested negations show it |
| Domains.ValueRoundTrip | crates/tcb/src/domain.rs:426-467 | Parsing undoes `to_value` for every domain |
| Domains.DictRoundTrip | crates/tcb/src/domain.rs:255-423 | Parsing undoes `to_dict` for every domain, though it writes instructions differently |
| Domains.BinaryFormMeansListForm | crates/tcb/src/domain.rs:578-599 | The left/right form parses to what the two-element list form parses to, errors included |
| Domains.RelOpRoundTrip | crates/tcb/src/domain.rs:94-137 | Operator names round trip |
| Rules.AddingOneByOneIsFromVec | crates/tcb/src/rule.rs:327-342 | Adding rules one by one to the empty collection is the stable descending sort that building at once gives |
| Rules.RunsKeepOrderAndConserve | crates/tcb/src/rule.rs:333-392 | Any run of add, remove and sort keeps a sorted collection sorted and loses or makes no rule |
| Rules.WeightIsLexicographicExactly | crates/tcb/src/rule.rs:297-299 | Weights compare by priority and then order for exactly the order numbers below 10000 |
| Rules.RuleCollection.FromVec | crates/tcb/src/rule.rs:327-330 | A stable descending sort |
| Rules.RuleCollection.Add | crates/tcb/src/rule.rs:333-341 | Inserted after all of equal or greater weight; sorted stays sorted |
| Rules.RuleCollection.Remove | crates/tcb/src/rule.rs:389-392 | Takes out the first rule of that id and no other, or changes nothing |
| Rules.RuleCollection.Sort | crates/tcb/src/rule.rs:384-386 | A stable descending sort |
| StableSorts.StableSortIsUnique | crates/tcb/src/rule.rs:327-330 | There is only one stable descending arrangement |
| StableSorts.AddingOneByOneIsSorting | crates/tcb/src/rule.rs:333-341 | Insertion one by one arrives at it, for any key |
| StableSorts.FindPosition | crates/tcb/src/rule.rs:335-340 | The search for the place finds the first of smaller weight |

## Left out

- Floating point: floats are opaque 64-bit patterns, and comparisons between numbers, integers included, are parameters of the domain evaluation; the patterns that are not a number, which the program turns into zero when it makes a float, are patterns like others here.
- Comparisons.IntegersAreOrdered: supposes that floats order the two integers as integers are ordered, which the program's conversion to 64-bit floats does up to 2^53 in size.
- SHA-256, HMAC and hexadecimal text: parameters; only the hypotheses stated with the results are used.
- Error messages, and the text of a dispatch key that is a float, a byte string or a collection: parameters of the environment.
- Words that overflow: tick, instruction count and state version are unbounded, where the code would wrap or panic after 2^64 steps; timestamps are cast to signed words as in the code.
- `max_steps` of 0: the debug build panics on the subtraction; the model has the flag false, as the release build does.
- `domain_values_overlap` in `primitive/domain_ops.rs`: its documented table and its code disagree, and nothing else depends on it.
- The primitives of `state_ops.rs` other than `state_set`, and those of `rule_ops.rs` and `domain_ops.rs`: leaf primitives here; `apply_rule`, which calls the registry again, is not part of this model.
- Context operations, explainers, registration from configuration, layers and freezing of the registry: plumbing.
- `Rule` dictionaries, `Display`, JSON conversion, `LogicalClock`, `random`, `randint` and `choice`: easy members.
- Engine.Execute: where the fallback never ends the call has the outcome `Diverged`; the stack it would exhaust is not modelled.
- Soundness.ChainIsAppendOnly: error places and targets may be named directly or by a reference to a field that is under the same guard; such fields are not written by the program itself along paths, and a reference to an unrestricted field is not covered, since anything may stand there.
- Messages.MessageKeepsChainExactly: is about states whose chain can be read (and `NoChainFromMessages` about those without one); what cannot be read as a chain has no records to lose, but a message may complete it to one that does not verify.
- Fallback.FallbackEndsExactly: for types that depend on what the fallback changes itself, the current instruction or the chain, there is only `Soundness.AllRunsEndExactly`.
- Soundness.TimestampsIncrease: the bound of 2^63 on the clock is there because timestamps are signed words.
- Store.WriteKeepsDivergingLocations: for paths with two indexes in a row the condition on nested lists is sufficient only.
- Fifo.LoopRunsQueue: the queue holds advances and business instructions; other meta-instructions among them are covered by `Drains.DrainStopsAtFirstBusiness` only.
- Fifo.LoopRecordsFold: without records of the meta-instructions that the drain runs; with them the trail is that of `Fifo.LoopRunsQueue`, which has more copies of the same pairs.
- Conditions.StillHoldsExactly: which domains a flagged loop keeps is not classified; `CutOffWithConditionFalse` applies to each that can be false of a blank state, and `WhileLoops.DomainLoopRuns` says what a loop does with any of them.
- WhileLoops.DomainLoopRuns: domains nested more than 128 deep are cut off in evaluation (`Domains.DepthBoundIsTight`) and not covered.
- Expansions.ExecutesItsCase: parameters of the case are values without references or references to parameters of the instruction; other references resolve as `References` says.
- Parallels.ContinueJoins: for calls in which no branch diverges; if one does, so does the call.
- Observation.AuditingIsObservationOnly: assumes the audited run is refused nothing; trace steps spend budget, so that a limit can end an audited run earlier.
- Interpreter.Execute: is only claimed for calls that come to an end.
