# Surplus and S.js, modelled in Dafny

Surplus is a preprocessor. It compiles JSX-like html literals embedded in JavaScript into code that builds DOM nodes. Its runtime is S.js, a small reactive engine:

- **data signals** hold values;
- **formulas** re-run whenever a signal they read changes;
- **schedulers** decide when a formula's update runs;
- **SArray** adds reactive array operations on top.

This project models the core of `dist/surplus.js`, the bundle that holds both the runtime and the preprocessor, and proves properties of the model:

- **`registry.dfy`, module `Registry`.** The bundle's `define(name, deps, fn)` module registry. A name can never be redefined, and the dependency relation it builds is acyclic.
- **`graph.dfy`, module `Graph`.** The engine's dependency graph: `Overseer`, `Source`, `Target` and `Dependency`.
  - The JavaScript objects live in an arena (three sequences of datatypes). Each object is named by its index.
  - The class `Graph.Overseer` holds the arena and the Overseer's own fields. Its methods perform the graph operations and are proved against arena functions.
  - The invariant `Consistent` is proved to be kept by every operation. It says that slots, offsets, the dependency index, the dependency lists and the generations agree.
- **`core.dfy`, module `Core`.** The reactive core: `S.data`, `S.formula` and its `update`/`dispose`, `S.peek`, `S.pin`, `S.defer`, `S.cleanup`, `S.finalize`, and the loops that call back into user code (`propagate`, `cleanup`, `dispose`, `runDeferred`).
  - These are mutually recursive. So this part is an interpreter on values: a formula's body is a script of actions.
  - A snapshot `World` holds every closure variable, the Overseer's `target` and `deferred`, the arena, and a log of what user callbacks were called.
  - A fuel parameter stands for the call stack.
- **`core_laws.dfy`, module `CoreLaws`.** Laws of the interpreter:
  - deferred functions run in order, and cleanups and finalizers run first to last;
  - `peek` reads without registering a dependency and restores `listening`, also when the body throws;
  - `dispose` is idempotent;
  - propagation hands every subscriber to its scheduler once, in slot order.
- **`schedulers.dfy`, module `Schedulers`.** The closures of `pause`, `stopsign` and `when`, as classes whose fields are the closed-over variables.
- **`options.dfy`, module `FormulaOptions`.** The `FormulaOptionsBuilder` chain (`on`, `once`, `pin`, `when`, `defer`/`throttle`/`debounce`/`pause`), with `maybeConcat` and `maybeCompose`.
- **`sarray_map.dfy`, `sarray_mutators.dfy` and `sarray_transforms.dfy`.** SArray:
  - the `mapS` and `forEach` reconcilers. Their round-robin matching is proved to be a partial injection between equal items that reports exactly the exits, moves and enters;
  - the in-place mutators, proved against `Array.prototype` semantics (`splice` clamping, `remove` and `removeAll` by multiset);
  - the transforms (`filter`, `reduce`, `reduceRight`, `every`, `some`, `find`, `includes`, `concat`, `combine`, `map`, `reverse`, `slice`).
- **`parse_regex.dfy`, module `ParseRegex`, and `parse.dfy`, module `Parse`.** The recursive-descent html-literal parser over the token list:
  - the cursor (`NEXT`, `SPLIT`, `MARK`, `ROLLBACK`, `LOC`) is the class `Parse.Parser`, and every production is one of its methods;
  - the parser's regular expressions are written out as functions.
- **`sourcemap.dfy`, module `SourceMap`.** The source-map support:
  - the Base64 VLQ encoder, proved to invert under a standard decoder;
  - the location-marker scanner that strips markers from generated code and builds the `mappings` string, which has one `;` per line;
  - the map record.
- **`codegen.dfy`, module `CodeGen`.** The code generator's `codeStr` and `genCallback`.
  - For text without a carriage return, `codeStr` is proved to produce a JavaScript literal whose value is the html text with its line feeds turned into line continuations.
  - A carriage return is left raw, and then the literal is malformed. A corrected version that escapes it is proved to give a well-formed literal for every text.
  - `genCallback` is proved to read back into its parameter and its code.
- **`wrappers.dfy`, module `Wrappers`.** `Option` and `Result`.

The runtime library `dist/surplus-runtime.js` repeats lines 20-1030 of `dist/surplus.js` unchanged. Every citation below is in `dist/surplus.js`.

## Model

| member | source | states |
|---|---|---|
| Registry.FirstMissing | dist/surplus.js:7-10 | the index of the first dependency that is not defined, with every earlier one defined, or the length when all are |
| Registry.Message | dist/surplus.js:6-8 | the texts `define` throws: each starts `define: `, one for a taken name and one naming the missing dependency and the module that required it |
| Registry.Lookup | dist/surplus.js:7-10 | `deps.map(dep => definitions[dep])`: one value per dependency, in order |
| Registry.Registry.constructor | dist/surplus.js:3 | the registry starts empty and valid |
| Registry.Registry.Define | dist/surplus.js:5-11 | a taken name throws `cannot redefine` and changes nothing; otherwise the first undefined dependency throws `not defined` and changes nothing; otherwise `fn` applied to the dependencies' values is recorded under the name. No existing module is ever replaced, and the ranks of dependencies stay below their dependents' |
| Registry.Registry.Resolve | dist/surplus.js:7-10 | the dependency lookup loop stops at exactly `FirstMissing`, and with all present returns `Lookup` |
| Registry.Registry.NoSelfDependency | dist/surplus.js:5-11 | no module is among its own dependencies |
| Registry.Registry.ChainDescends | dist/surplus.js:5-11 | along any chain of dependencies the definition order strictly decreases |
| Registry.Registry.DependencyDescends | dist/surplus.js:7-10 | a dependency was defined before its dependent |
| Registry.Registry.Acyclic | dist/surplus.js:5-11 | no chain of dependencies returns to where it started: the module graph is acyclic |
| Registry.FirstMissingIs | dist/surplus.js:7-10 | a position with every earlier dependency present and itself absent is the first missing one |
| Graph.Overseer.constructor | dist/surplus.js:22-26 | `count` 1, no running target, no deferred functions, an empty graph |
| Graph.Overseer.NewSource | dist/surplus.js:44-49 | the new source takes the id `count` (which grows by one) and the running target's lineage, with no slots; flags and targets are unchanged |
| Graph.WithSource | dist/surplus.js:44-49 | a new source keeps the arena well formed and only appends one source |
| Graph.Overseer.NewTarget | dist/surplus.js:69-94 | the new target copies the running target's lineage (TypeError when that target is disposed), appends itself, and gets updaters wrapped by every lineage scheduler; the rest of the arena is unchanged |
| Graph.WithTarget | dist/surplus.js:69-94 | error exactly when the running target is disposed (TypeError); otherwise one target is appended, built as `Constructed` states, and nothing else changes |
| Graph.Built | dist/surplus.js:69-94 | a fresh target: listening, locked, generation 1, not pinning (the constructor reads `options.pinning`, which no options object has), its lineage being the parent's plus itself, with `updaters` given by `UpdaterChain` |
| Graph.UpdaterChain | dist/surplus.js:87-94 | one updater for each lineage position and one more for the target itself |
| Graph.ChainUnwrapped | dist/surplus.js:87-94 | with no scheduler at position k or later, `updaters[k]` is the plain update |
| Graph.ChainFirstScheduler | dist/surplus.js:87-94 | `updaters[k]` is the wrapper of the first scheduler at position k or later, around `updaters[j+1]` |
| Graph.ChainRawIff | dist/surplus.js:87-94 | `updaters[k]` is the raw update if and only if no scheduler sits at position k or later |
| Graph.FirstScheduled | dist/surplus.js:87-94 | the first scheduled lineage position from k on, with none before it |
| Graph.Overseer.EditTarget | dist/surplus.js:112-115 | setting `locked`/`listening`/`pinning`, stepping `gen` or editing the callback lists changes exactly that target |
| Graph.Edited | dist/surplus.js:112-115 | such an edit keeps the arena well formed; it keeps the flags when those are unchanged, and the lists no longer when they do not grow |
| Graph.Overseer.Activate | dist/surplus.js:194-201 | the dependency becomes active with the given generation, its slot refilled; nothing else changes |
| Graph.Activated | dist/surplus.js:194-201 | only dependency d and d's source's slot array change; d is active with generation `gen` |
| Graph.ActivateIdempotent | dist/surplus.js:194-201 | activating twice is activating once |
| Graph.Overseer.Deactivate | dist/surplus.js:202-208 | the dependency becomes inactive and its slot is nulled; nothing else changes |
| Graph.Deactivated | dist/surplus.js:202-208 | only d and its source's slot array change; d is inactive with its generation kept |
| Graph.DeactivateIdempotent | dist/surplus.js:202-208 | deactivating twice is deactivating once |
| Graph.SetSlot | dist/surplus.js:198 | `updates[k] = v` on a JavaScript array: it grows past the end with holes, sets index k, and leaves every other index alone |
| Graph.CommonPrefix | dist/surplus.js:180-182 | the divergence point of two lineages: they agree before it and differ at it, unless one ends |
| Graph.Overseer.NewDependency | dist/surplus.js:173-191 | follows `WithDependency`: a source with a null lineage throws and changes nothing |
| Graph.WithDependency | dist/surplus.js:173-191 | succeeds exactly when the source's lineage is not null; then it appends an active dependency at the target's generation, whose slot is appended to the source's array and holds the target's updater at the divergence point |
| Graph.Overseer.AddSource | dist/surplus.js:133-143 | follows `AddedSource` |
| Graph.AddedSource | dist/surplus.js:133-143 | a target that is not listening, or is locked, leaves the arena as it was; a listening, unlocked, disposed target throws TypeError; success keeps the arena well formed, stable and with the same targets |
| Graph.AddSourceRegisters | dist/surplus.js:133-143 | reading a source from a listening, unlocked, live target leaves an active dependency on it at the target's generation: the indexed one reused, or a new one appended with its slot at the end of the source's array |
| Graph.OneDependencyPerSource | dist/surplus.js:133-143 | a live target holds at most one dependency per source |
| Graph.Overseer.ReportReference | dist/surplus.js:29-31 | with a running target, that target reads the source; without one, nothing changes |
| Graph.Referenced | dist/surplus.js:29-31 | without a running target the arena is unchanged; otherwise it is the target's `addSource` |
| Graph.Overseer.AddSubformula | dist/surplus.js:128-132 | follows `Subformula` |
| Graph.Subformula | dist/surplus.js:128-132 | a locked target refuses with the subformula error; otherwise the dispose goes to `finalizers` when pinned (by option or by `pinning`), else to `cleanups` |
| Graph.Overseer.ReportFormula | dist/surplus.js:32-34 | follows `Reported`: the running target, if any, takes the subformula |
| Graph.Reported | dist/surplus.js:32-34 | without a running target nothing changes |
| Graph.Overseer.PushCallback | dist/surplus.js:360-374 | follows `PushedCallback` |
| Graph.PushedCallback | dist/surplus.js:360-374 | a disposed target (null lists) throws TypeError; otherwise exactly the chosen list gains the callback at its end |
| Graph.Overseer.EndUpdate | dist/surplus.js:116-127 | follows `Ended` |
| Graph.Ended | dist/surplus.js:116-127 | a target that is not listening does nothing; a listening disposed one throws TypeError; otherwise only dependencies change |
| Graph.PrunedUpTo | dist/surplus.js:121-126 | the first i turns of the pruning loop keep the arena well formed, and keep every dependency's identity and generation |
| Graph.PrunedActive | dist/surplus.js:121-126 | after i turns, a dependency is active exactly when it was and is not among the first i with a stale generation |
| Graph.EndUpdatePrunes | dist/surplus.js:116-127 | after `endUpdate`, a dependency of the target is active exactly when it was active and read in this run (generation equal to the target's) |
| Graph.Overseer.DeactivateAll | dist/surplus.js:159-161 | the dispose loop equals `DeactivatedFrom`, from the last dependency to the first |
| Graph.DeactivatedFrom | dist/surplus.js:159-161 | the loop keeps the arena well formed and each dependency's identity and generation |
| Graph.DeactivatedFromActive | dist/surplus.js:159-161 | after the loop from i, a dependency is active exactly when it was and is not among `ds[i..]` |
| Graph.Overseer.DisposeTarget | dist/surplus.js:150-170 | follows `Dismantled` |
| Graph.Dismantled | dist/surplus.js:150-170 | a disposed target throws TypeError; otherwise it dismantles the target: not live, flags stable, lists no longer |
| Graph.DisposeSwitchesOff | dist/surplus.js:150-170 | after the dispose loop every dependency of the target is off, and releasing the target keeps the invariant |
| Graph.ReleasedFrame | dist/surplus.js:163-169 | nulling the target's fields keeps the arena well formed, keeps all flags, and empties its lists |
| Graph.Overseer.DisposeSource | dist/surplus.js:63-66 | follows `DisposedSource`: the lineage is nulled and the slot array truncated; flags are unchanged |
| Graph.SlotFollowsActivity | dist/surplus.js:52-62 | while its source is live, a dependency's slot is non-null exactly when the dependency is active, and then holds its updater |
| Graph.EmptyConsistent | dist/surplus.js:22-26 | the empty graph satisfies the invariant |
| Graph.ActivatedKeeps | dist/surplus.js:194-201 | reactivation keeps the invariant |
| Graph.DeactivatedKeeps | dist/surplus.js:202-208 | deactivation keeps the invariant |
| Graph.WithDependencyKeeps | dist/surplus.js:173-191 | adding a dependency for a target without one on that source succeeds and keeps the invariant |
| Graph.AddedSourceKeeps | dist/surplus.js:133-143 | `addSource` keeps the invariant |
| Graph.PrunedKeeps | dist/surplus.js:116-127 | every prefix of the pruning loop keeps the invariant |
| Graph.DeactivatedFromKeeps | dist/surplus.js:160-162 | every suffix of the dispose loop keeps the invariant |
| Graph.ReleasedKeeps | dist/surplus.js:163-169 | releasing a target whose dependencies are all off keeps the invariant |
| Graph.DisposedSourceKeeps | dist/surplus.js:63-66 | disposing a source keeps the invariant |
| Graph.PlainEditKeeps | dist/surplus.js:112-115 | flag, generation and list edits keep the invariant |
| Graph.NewSourceKeeps | dist/surplus.js:44-49 | a new source keeps the invariant |
| Graph.NewTargetKeeps | dist/surplus.js:69-94 | a new target keeps the invariant |
| Graph.PruneOne | dist/surplus.js:116-127 | one turn of the pruning loop: a dependency read in an earlier generation is switched off; its frame is `PrunedUpTo`'s |
| Graph.Released | dist/surplus.js:163-169 | the end of `Target.dispose`: lineage, scheduler, updaters and the lists nulled and the target no longer live; `ReleasedKeeps` proves it keeps the invariant |
| Graph.DisposedSource | dist/surplus.js:63-66 | `Source.dispose`: only that source changes, to no lineage and no slots, and the invariant is kept |
| Graph.Consistent | dist/surplus.js:20-191 | the graph invariant: slots, offsets, the dependency index, the dependency lists and the generations agree; every operation keeps it (the `…Keeps` lemmas) |
| Core.RunCallback | dist/surplus.js:35-41 | a user callback's call is logged; a formula's dispose runs; errors are only TypeError or fuel |
| Core.DisposeFormula | dist/surplus.js:307-313 | on success the closure forgets `fn`, `src`, `tgt` and `value` |
| Core.DisposeTarget | dist/surplus.js:150-170 | a disposed target throws TypeError; on success the target is no longer live |
| Core.RunCleanups | dist/surplus.js:144-149 | null lists throw TypeError; on success the target is live with its cleanups emptied |
| Core.RunFinalizers | dist/surplus.js:155-157 | null lists throw TypeError; on success the target is still live |
| Core.RunDeferred | dist/surplus.js:35-41 | with a running target nothing happens; at top level a successful run empties the queue and leaves the cells and running target as they were |
| Core.ReadSignal | dist/surplus.js:278-281 | reading a signal changes only the graph (through `reportReference`) |
| Core.ReadSources | dist/surplus.js:100-101 | the sources loop changes only the graph and fails only with TypeError |
| Core.Update | dist/surplus.js:283-305 | a formula already updating or disposed does nothing; otherwise the snapshot is settled (references resolve, the running target is restored unless the update broke) |
| Core.Complete | dist/surplus.js:294-302 | after the try/finally the previous running target is back |
| Core.Finish | dist/surplus.js:298-302 | the finally block clears `updating` and restores the previous target |
| Core.EndStep | dist/surplus.js:304 | `endUpdate` changes only the graph and fails only with TypeError |
| Core.Register | dist/surplus.js:360-374 | at top level `S.cleanup`/`S.finalize` throw their own errors and change nothing |
| Core.Restore | dist/surplus.js:324-350 | the finally of peek and pin puts the flag back on whatever target runs then, and passes the body's result through; with none, TypeError |
| Core.Flagged | dist/surplus.js:324-350 | only the chosen flag of the running target changes |
| Core.NewFormula | dist/surplus.js:259-276 | a formula closure is always created and the snapshot settles |
| Core.Targeted | dist/surplus.js:261 | the Target constructor fails only with TypeError; with explicit sources the new target stops listening |
| Core.Sourced | dist/surplus.js:96-108 | the sources block restores the previous running target and leaves the new target not listening |
| Core.Started | dist/surplus.js:272 | with `init`, the update is handed to `init` (logged) instead of run |
| Core.Invoke | dist/surplus.js:58-60 | calling a slot's updater keeps the snapshot well formed and only adds to it; unless it failed like a broken update, the running target is back as it was |
| Core.Propagate | dist/surplus.js:52-62 | the propagate loop from turn i keeps the snapshot well formed and additive and, short of a broken update, restores the running target |
| Core.PropagateAll | dist/surplus.js:52-62 | `propagate()` over the slots present when it starts: the same guarantee |
| Core.Begin | dist/surplus.js:285-292 | the start of `update` adds to the snapshot and fails only with TypeError or fuel |
| Core.Body | dist/surplus.js:294-297 | the try block of `update` (run fn, lock, propagate) keeps the snapshot well formed and, short of a broken update, restores the running target |
| Core.Exec | dist/surplus.js:259-318 | running a formula body's script: the same guarantee |
| Core.Void | dist/surplus.js:567-573 | `S.pin(fn)`'s result: the world and any error pass through unchanged, a success yields undefined |
| Core.Act | dist/surplus.js:233-374 | each action of a script (reading and writing signals, peek, pin, defer, cleanup, finalize, a sub-formula, a throw): the same guarantee; `S.pin(fn)` yields undefined (567-573) while `S.peek` yields the body's value |
| Core.WriteCell | dist/surplus.js:241-244 | a data write keeps the snapshot well formed; short of a broken update the running target is back as it was |
| Core.Peeked | dist/surplus.js:324-336 | `S.peek(fn)` keeps the snapshot well formed and, short of a broken update, restores the running target |
| Core.Pinned | dist/surplus.js:338-350 | `core.pin(fn)`, which returns what the body returns: the snapshot stays well formed and, short of a broken update, the running target is back |
| Core.Closure | dist/surplus.js:259-269 | the formula closure before its target exists: one more formula, no new target, the running target unchanged |
| Core.Launch | dist/surplus.js:265-276 | registering the dispose, the first update and `runDeferred` keep the snapshot well formed and lose no formula |
| Core.Forgotten | dist/surplus.js:307-313 | the closure after dispose: `fn`, `src`, `tgt` and `value` are all gone, and the snapshot stays well formed |
| Core.Peeking | dist/surplus.js:324-336 | the situation `S.peek` changes: a running target that is listening |
| Core.Pinning | dist/surplus.js:338-350 | the situation `S.pin` changes: a running target that is not pinning |
| Core.Unlistened | dist/surplus.js:107 | switching a target's listening off changes only that flag and keeps the snapshot well formed |
| Core.Begun | dist/surplus.js:285-292 | the rest of `update`'s start once the cleanups have run: the generation bump and unlocking add to the snapshot and fail only with TypeError |
| CoreLaws.DeferredRunInOrder | dist/surplus.js:35-41 | at top level the deferred user functions run in the order deferred, and the queue ends empty |
| CoreLaws.DeferredStep | dist/surplus.js:37-39 | one turn of `runDeferred` takes the first function off the queue |
| CoreLaws.CleanupsRunInOrder | dist/surplus.js:144-149 | user cleanups run first to last, the list is emptied, and nothing else changes |
| CoreLaws.FinalizersRunInOrder | dist/surplus.js:155-157 | user finalizers run first to last and nothing else changes |
| CoreLaws.DisposeRunsCleanupsThenFinalizers | dist/surplus.js:150-170 | dispose on a live target runs its cleanups, then its finalizers, then dismantles the graph |
| CoreLaws.BeginKeepsFinalizers | dist/surplus.js:112-115 | a parent's re-run runs its user cleanups, empties them, bumps its generation and unlocks it, and leaves its finalizers (the pinned sub-formulas' disposes) untouched and its wiring as it was |
| CoreLaws.CleanupsDone | dist/surplus.js:144-149 | the cleanup loop over user cleanups ends in one known snapshot: notes logged, list emptied |
| CoreLaws.BeginThenBegun | dist/surplus.js:285-292 | once the cleanup loop returned normally, the rest of `beginUpdate` is `Begun` |
| CoreLaws.BegunBumps | dist/surplus.js:291-292 | `Begun` changes only the target's generation, one more, and its locked flag, now false: its finalizers stay |
| CoreLaws.ReadRegisters | dist/surplus.js:240-247 | reading a data signal in a listening, unlocked running target returns its value and leaves an active dependency at the target's generation; every snapshot the interpreter reaches satisfies the graph invariant, which `Good` includes |
| CoreLaws.PeekReadsWithoutDependency | dist/surplus.js:324-336 | for any body that only calls signals, `S.peek` leaves the snapshot exactly as it was and returns what the reads return |
| CoreLaws.PeekRestoresOnThrow | dist/surplus.js:324-336 | for any body that ends in an error other than a broken update, `S.peek` passes the error out unchanged, with the previous target running and listening again |
| CoreLaws.ReadUnregistered | dist/surplus.js:278-281 | with a running target that is not listening, calling a signal registers nothing and just returns its value |
| CoreLaws.ReadsUnregistered | dist/surplus.js:278-281 | a body that only calls signals, run without listening, leaves the snapshot as it was |
| CoreLaws.PeekedQuiet | dist/surplus.js:324-336 | a body that leaves the snapshot as it was inside `S.peek` leaves it as it was outside too |
| CoreLaws.ListeningBack | dist/surplus.js:324-336 | switching listening off and on again gives back the snapshot |
| CoreLaws.PeekRestoresListening | dist/surplus.js:324-336 | whatever the body does, short of a broken update, `S.peek` leaves the target listening again |
| CoreLaws.PinRestoresPinning | dist/surplus.js:338-350 | `S.pin` leaves the target not pinning again |
| CoreLaws.DisposeIdempotent | dist/surplus.js:307-313 | once dispose succeeded, a second dispose changes nothing and reading returns undefined |
| CoreLaws.PropagateHandsOff | dist/surplus.js:52-62 | when every subscriber is behind a scheduler, `propagate` hands each non-null slot over once, in slot order |
| CoreLaws.WriteWithoutSubscribers | dist/surplus.js:240-249 | a top-level write to an unread data signal stores and returns the value and nothing else happens |
| CoreLaws.ExplicitSourcesStay | dist/surplus.js:107-143 | a formula built with explicit sources, whose body only reads, keeps its sources, dependencies, index and listening flag through a re-run: neither `addSource` nor `endUpdate` changes them |
| CoreLaws.CompleteQuiet | dist/surplus.js:294-304 | the try block, the finally block and `endUpdate` of such a run leave the wiring as it was |
| CoreLaws.BodyQuiet | dist/surplus.js:294-297 | the body of such a run registers nothing and tells no subscriber |
| CoreLaws.RelockWiring | dist/surplus.js:296 | locking the target again changes no wiring |
| CoreLaws.FinishQuiet | dist/surplus.js:298-302 | the finally block changes no wiring and keeps the target's listening flag |
| Schedulers.PauseStep | dist/surplus.js:393-407 | a resume clears `scheduled` and updates; a trigger sets it and hands out a resume only when none is pending |
| Schedulers.Paused.constructor | dist/surplus.js:393-396 | `pause` starts not scheduled, with nothing done |
| Schedulers.Paused.Fire | dist/surplus.js:397-404 | the trigger changes state as `PauseStep` says |
| Schedulers.Paused.Resume | dist/surplus.js:401-404 | the resume changes state as `PauseStep` says |
| Schedulers.PauseCoalesces | dist/surplus.js:393-407 | then the collector gets at most one resume more than the number of resumes run |
| Schedulers.PauseUpdatesOnResume | dist/surplus.js:393-407 | `update` runs exactly once per resume, never on a trigger |
| Schedulers.PauseDropsWhilePending | dist/surplus.js:397-398 | while a resume is pending, triggers do nothing |
| Schedulers.PauseRun | dist/surplus.js:393-407 | after a run of events the flag is set exactly when the last event was a trigger; the counts are `PauseCoalesces` and `PauseUpdatesOnResume` |
| Schedulers.StopSign.Collect | dist/surplus.js:462-464 | the update is appended to the collected list |
| Schedulers.StopSign.constructor | dist/surplus.js:456-461 | `stopsign` starts with no collected updates and no calls |
| Schedulers.StopSign.Go | dist/surplus.js:466-471 | every collected update runs, in order, and the list is emptied |
| Schedulers.WhenGate | dist/surplus.js:475-482 | `update` fires exactly when every predicate is defined; otherwise evaluation stops at the first undefined one |
| Schedulers.GatedTrigger | dist/surplus.js:393-407 | as written, a trigger of `pause(when(preds))` stays scheduled exactly when some predicate is undefined |
| Schedulers.GatedTriggerSticks | dist/surplus.js:393-407 | as written, one trigger with an undefined predicate blocks every later trigger |
| Schedulers.GatedRun | dist/surplus.js:393-407 | as written, once `scheduled` is set, every later trigger does nothing |
| Schedulers.GatedTriggerFixed | dist/surplus.js:393-407 | the intended gate never leaves a resume pending, and updates exactly when the predicates are defined |
| Schedulers.GatedRunFixed | dist/surplus.js:475-482 | the intended gate never leaves a resume pending; its update count is `GatedRunFixedUpdates` |
| Schedulers.GatedRunFixedUpdates | dist/surplus.js:475-482 | with the intended gate, `update` runs once per trigger whose predicates are all defined |
| FormulaOptions.Normalised | dist/surplus.js:493 | falsy gives `[]`, one signal a singleton, and an array itself |
| FormulaOptions.MaybeConcat | dist/surplus.js:525 | a missing list becomes `b`; a present one is extended by `b` |
| FormulaOptions.MaybeConcatTwice | dist/surplus.js:492-496 | two `on` calls collect what one `on` with both lists collects |
| FormulaOptions.MaybeCompose | dist/surplus.js:524 | no old option gives the new scheduler; one gives the composition |
| FormulaOptions.AppliedComposedDropsUpdate | dist/surplus.js:524 | as written, a composed option ignores its update: the innermost call is `undefined` |
| FormulaOptions.AppliedInnermost | dist/surplus.js:524 | a single scheduler keeps the update, a composed one drops it |
| FormulaOptions.Applied | dist/surplus.js:524 | as written, every installed scheduler still wraps, in order, latest outermost; what they finally call is `AppliedInnermost` |
| FormulaOptions.AppliedFixedKeepsUpdate | dist/surplus.js:524 | with the intended composition the update is kept and wrapped by every scheduler the builder installed, the latest outermost |
| FormulaOptions.AppliedFixed | dist/surplus.js:524 | with the intended composition the innermost call is the update itself |
| FormulaOptions.OptionsBuilder.constructor | dist/surplus.js:252-257 | no sources, no pin, no update, no init |
| FormulaOptions.OptionsBuilder.On | dist/surplus.js:492-496 | adds the normalised signals to the sources; nothing else changes |
| FormulaOptions.OptionsBuilder.Once | dist/surplus.js:497-500 | sets an empty source list; nothing else changes |
| FormulaOptions.OptionsBuilder.Pin | dist/surplus.js:501-504 | sets pin; nothing else changes |
| FormulaOptions.OptionsBuilder.When | dist/surplus.js:505-512 | adds the signals as sources and composes `pause(when(l))` into both init and update |
| FormulaOptions.OptionsBuilder.Schedule | dist/surplus.js:516-518 | composes the scheduler into update only |
| FormulaOptions.OptionsBuilder.Built | dist/surplus.js:252-257 | the options the formula reads: sources and pin as built, scheduled and init exactly when set |
| SArrayMap.Probe | dist/surplus.js:680-687 | a found index holds an equal new item that is not yet claimed |
| SArrayMap.ProbeNone | dist/surplus.js:680-687 | a failed search means every equal new item is already claimed |
| SArrayMap.MatchingSound | dist/surplus.js:678-689 | the matching is a partial injection between equal items; an old index exits exactly when unmatched, and only when every equal new item is taken; exits are in increasing order; the moves pair `from[q]` with `to[q]` for exactly the matches that change index |
| SArrayMap.Matching | dist/surplus.js:678-689 | the claims loop 1 makes: one claim slot per new item, and the probe index in range |
| SArrayMap.NoEnters | dist/surplus.js:695-711 | when every new item was claimed, no `enter` is called |
| SArrayMap.Items | dist/surplus.js:716 | mapS's items as mapped values, element by element |
| SArrayMap.MatchingUnchanged | dist/surplus.js:678-689 | with the same items, every index keeps its place: nothing exits or moves |
| SArrayMap.UpdateUnchanged | dist/surplus.js:668-719 | an update with unchanged items rebuilds the same array and calls no callback |
| SArrayMap.EntersExactly | dist/surplus.js:695-711 | `enter` is called for exactly the unclaimed new indices, each once, in increasing order |
| SArrayMap.ItemsKept | dist/surplus.js:695-711 | without `enter`, the rebuilt array holds the new items |
| SArrayMap.MapS.constructor | dist/surplus.js:662-666 | empty items, mapped array and log |
| SArrayMap.MapS.Update | dist/surplus.js:668-719 | one run of mapS: the new mapped array is `Rebuilt` from the matching; items and len become the new ones; the log gains exits, then the move, then the enters |
| SArrayMap.MatchEntries | dist/surplus.js:676-689 | loop 1 computes exactly the matching's `from`, `to` and exits, and `temp` holding the reused entries |
| SArrayMap.MatchStep | dist/surplus.js:678-689 | one outer iteration advances to `PlanUpTo(i + 1)` |
| SArrayMap.ClaimStep | dist/surplus.js:681-686 | a claim sets `temp[k]`, records a move when the index changes, and moves `k` past it |
| SArrayMap.ExitStep | dist/surplus.js:688-689 | an unmatched old entry is exited, and disposed when there is `enter` |
| SArrayMap.FillEntries | dist/surplus.js:695-713 | loops 2 and 3 build exactly `Rebuilt`, with the enters made |
| SArrayMap.SearchTemp | dist/surplus.js:680-687 | the inner loop finds exactly what `Probe` says |
| SArrayMap.SearchFound | dist/surplus.js:741-748 | forEach's inner loop finds exactly what `Probe` says |
| SArrayMap.ForEach.constructor | dist/surplus.js:724-727 | empty items and log |
| SArrayMap.ForEach.Update | dist/surplus.js:729-769 | one run of forEach: the log gains the same exits, move and enters as mapS's matching; it returns the copied items |
| SArrayMap.MatchItems | dist/surplus.js:737-752 | loop 1 of forEach gives the matching's `from`, `to`, exits and `found` flags |
| SArrayMap.ItemStep | dist/surplus.js:740-749 | one outer iteration of forEach's loop 1 advances to `PlanUpTo(i + 1)`, keeping `found` equal to the claims |
| SArrayMutators.ClampStart | dist/surplus.js:974-981 | a negative start counts from the end; the result is clamped to the length |
| SArrayMutators.ClampCount | dist/surplus.js:974-981 | no arguments deletes nothing; a start alone deletes the rest; a count is clamped |
| SArrayMutators.Spliced | dist/surplus.js:974-981 | `splice()` without arguments leaves the array unchanged; its shape is `SplicedShape` |
| SArrayMutators.SplicedShape | dist/surplus.js:974-981 | splice keeps the prefix, inserts the items, and keeps the elements after the deleted ones |
| SArrayMutators.Popped | dist/surplus.js:947-954 | the last element and the rest; an empty array is unchanged and gives undefined |
| SArrayMutators.Shifted | dist/surplus.js:965-972 | the first element and the rest; an empty array is unchanged and gives undefined |
| SArrayMutators.PushIsSplice | dist/surplus.js:938-945 | push is a splice at the end |
| SArrayMutators.UnshiftIsSplice | dist/surplus.js:956-963 | unshift is a splice at the front |
| SArrayMutators.PopIsSplice | dist/surplus.js:947-954 | pop leaves what `splice(-1)` leaves |
| SArrayMutators.ShiftIsSplice | dist/surplus.js:965-972 | shift leaves what `splice(0, 1)` leaves |
| SArrayMutators.RemoveFirstAt | dist/surplus.js:983-996 | with the first occurrence at i, exactly index i is spliced out |
| SArrayMutators.RemoveFirstAbsent | dist/surplus.js:983-996 | removing an absent item leaves the array unchanged |
| SArrayMutators.RemoveFirstCount | dist/surplus.js:983-996 | remove takes away exactly one occurrence by multiset, if there is one |
| SArrayMutators.RemoveFirstLength | dist/surplus.js:983-996 | the array shrinks by one exactly when the item occurs |
| SArrayMutators.RemoveFirst | dist/surplus.js:983-996 | remove takes away at most one element; which one is `RemoveFirstAt`, and the count `RemoveFirstCount` |
| SArrayMutators.WithoutSkip | dist/surplus.js:998-1013 | an occurrence at the front leaves nothing of it behind |
| SArrayMutators.WithoutAppend | dist/surplus.js:998-1013 | removeAll of a concatenation is the concatenation of the removeAlls, so order is kept |
| SArrayMutators.WithoutCount | dist/surplus.js:998-1013 | no occurrence is left, and every other value's count is unchanged |
| SArrayMutators.WithoutAbsent | dist/surplus.js:998-1013 | without the item, the array is unchanged |
| SArrayMutators.WithoutTwice | dist/surplus.js:998-1013 | removeAll is idempotent |
| SArrayMutators.WithoutSpliceOut | dist/surplus.js:1002-1008 | splicing out one occurrence does not change what removeAll leaves |
| SArrayMutators.Without | dist/surplus.js:998-1013 | removeAll as a definition over the values; its laws are `WithoutCount`, `WithoutAppend`, `WithoutAbsent` and `WithoutTwice` |
| SArrayMutators.SArrayData.constructor | dist/surplus.js:938-1013 | starts with the given array and no writes |
| SArrayMutators.SArrayData.Push | dist/surplus.js:938-945 | appends the item and writes the array back |
| SArrayMutators.SArrayData.Pop | dist/surplus.js:947-954 | removes and returns the last element (undefined when empty) and writes back |
| SArrayMutators.SArrayData.Unshift | dist/surplus.js:956-963 | prepends the item and writes back |
| SArrayMutators.SArrayData.Shift | dist/surplus.js:965-972 | removes and returns the first element (undefined when empty) and writes back |
| SArrayMutators.SArrayData.Splice | dist/surplus.js:974-981 | the array becomes `Spliced`, and is written back |
| SArrayMutators.SArrayData.Remove | dist/surplus.js:983-996 | the first occurrence is removed, and the array is written back |
| SArrayMutators.SArrayData.RemoveAll | dist/surplus.js:998-1013 | every occurrence is removed, and the array is written back |
| SArrayTransforms.Filter | dist/surplus.js:846-860 | the loop computes `Filtered` |
| SArrayTransforms.FilteredSpec | dist/surplus.js:846-860 | filter keeps exactly the elements that satisfy the predicate, and is no longer than its input |
| SArrayTransforms.FilteredTwice | dist/surplus.js:846-860 | filtering is idempotent |
| SArrayTransforms.Filtered | dist/surplus.js:846-860 | no longer than its input, and every element kept satisfies the predicate |
| SArrayTransforms.Reduce | dist/surplus.js:874-884 | the loop folds left from the seed, passing index and array |
| SArrayTransforms.ReduceRight | dist/surplus.js:886-896 | the loop folds from the right |
| SArrayTransforms.ReversedIndex | dist/surplus.js:921-928 | reverse puts element `|s|-1-i` at index i |
| SArrayTransforms.ReversedTwice | dist/surplus.js:921-928 | reverse undoes itself |
| SArrayTransforms.Reversed | dist/surplus.js:921-928 | the same length as the array; where each element goes is `ReversedIndex` |
| SArrayTransforms.ReduceRightIsReversedReduce | dist/surplus.js:874-896 | for callbacks ignoring index and array, reduceRight equals reduce over the reversed array |
| SArrayTransforms.Every | dist/surplus.js:898-907 | true exactly when every element passes |
| SArrayTransforms.SomeElement | dist/surplus.js:909-919 | without fn, non-emptiness; with fn, true exactly when some element passes |
| SArrayTransforms.Find | dist/surplus.js:792-803 | undefined exactly when nothing passes; otherwise the first element that passes |
| SArrayTransforms.Includes | dist/surplus.js:805-814 | true exactly when the element occurs |
| SArrayTransforms.Concat | dist/surplus.js:862-872 | the array followed by all the other arrays in order |
| SArrayTransforms.FlattenedAppend | dist/surplus.js:862-872 | flattening distributes over concatenation |
| SArrayTransforms.Flattened | dist/surplus.js:862-872 | every other array's elements all occur in the result |
| SArrayTransforms.SlicedSpec | dist/surplus.js:930-935 | a slice is no longer than the array, contains no element more often, and without arguments is a copy |
| SArrayTransforms.SlicedInRange | dist/surplus.js:930-935 | in-range indices, counted from either end, take exactly the elements between them |
| SArrayTransforms.Sliced | dist/surplus.js:930-935 | a slice is never longer than the array |
| SArrayTransforms.Combine | dist/surplus.js:775-785 | the array of the signals' current values, element by element |
| SArrayTransforms.Map | dist/surplus.js:787-790 | with `enter`, the values of the entered formulas; without it, mapS's items |
| SourceMap.ToInt32 | dist/surplus.js:1168 | the 32-bit two's-complement value a shift operand is reduced to |
| SourceMap.SignToLsb | dist/surplus.js:1168 | the sign moved to bit 0 with the 32-bit shift: the result is odd exactly when the value is negative, for every value including those whose shift wraps; `SignToLsbInRange` gives the exact value when it does not |
| SourceMap.SignToLsbInRange | dist/surplus.js:1168 | for values whose shift does not overflow, the sign moves to bit 0 |
| SourceMap.Vlq | dist/surplus.js:1164-1180 | the digit loop produces exactly `VlqSpec`: five-bit groups, least significant first |
| SourceMap.DigitsMatchGroups | dist/surplus.js:1170-1177 | the base-32 digits, read in reverse through the two alphabets, are the VLQ groups |
| SourceMap.Base32MatchesGroups | dist/surplus.js:1170-1177 | for a non-negative value, reversed `toString(32)` digits give its groups |
| SourceMap.NumberToString32 | dist/surplus.js:1170 | `num.toString(32)`: a non-empty digit string, with a leading `-` for a negative number; `Base32MatchesGroups` reads it back |
| SourceMap.ParseInt32 | dist/surplus.js:1174-1177 | `parseInt(c, 32)` of one character: a digit value below 32, or none (`NaN`) for any other character such as `-` |
| SourceMap.PickCont | dist/surplus.js:1174 | `vlqcont[d]`: for a digit one character whose Base64 value is `32 + d` (continuation bit set); for `NaN` the text `undefined` |
| SourceMap.PickLast | dist/surplus.js:1177 | `vlqlast[d]`: for a digit one character whose Base64 value is `d`; for `NaN` the text `undefined` |
| SourceMap.GroupsOf | dist/surplus.js:1168-1177 | the groups the digit loop emits for a shifted value: `Groups` for a non-negative one, continuation groups then `undefined` for one that wrapped negative; `Vlq` proves the loop produces it |
| SourceMap.VlqExamples | dist/surplus.js:1164-1180 | 0 → `A`, 1 → `C`, -1 → `D`, 8 → `Q`, 16 → `gB` |
| SourceMap.VlqRoundTrip | dist/surplus.js:1164-1180 | a standard VLQ decoder reads back every value whose shift does not overflow |
| SourceMap.VlqHasNoSeparator | dist/surplus.js:1164-1180 | VLQ text never holds `;` or `,` |
| SourceMap.VlqSpec | dist/surplus.js:1164-1180 | the VLQ text of a value: its groups, or `undefined` appended for a shift that wraps negative; `VlqRoundTrip` inverts it |
| SourceMap.MarkerAt | dist/surplus.js:1055 | the alternative of the marker pattern at an index: a newline exactly at a newline, with the width it covers |
| SourceMap.MarkerHasNoNewline | dist/surplus.js:1055 | a marker never spans a newline |
| SourceMap.SegmentStartMarker | dist/surplus.js:1068-1070 | `segmentStart(loc)`: NUL, line, `,`, column, NUL; `StartMarkerMatches` proves the scanner reads the line and column back |
| SourceMap.SegmentEndMarker | dist/surplus.js:1072-1074 | `segmentEnd()`: two NULs; `StripSegmentEnd` proves stripping removes it |
| SourceMap.OnNewline | dist/surplus.js:1086-1102 | a newline is kept, adds `;`, and continues an open segment on the next line |
| SourceMap.OnSegmentStart | dist/surplus.js:1103-1121 | a start marker is removed and adds one segment of four deltas |
| SourceMap.NewlineStep | dist/surplus.js:1086-1102 | the newline branch: mappings only grow, by a `;` first; afterwards the output line starts at the newline just copied and the previous generated column is 0 |
| SourceMap.SegmentStep | dist/surplus.js:1103-1121 | the segment-start branch: nothing is added to the output, mappings only grow, and a segment is open |
| SourceMap.GeneratedColumn | dist/surplus.js:1104 | `gcol`: as written `offset - linestart`, in the text that still holds the markers; corrected, the distance from the output line's start. `GeneratedColumnCountsMarkers` and `CorrectedColumnIsOutputColumn` state each |
| SourceMap.ScanAt | dist/surplus.js:1085-1126 | one match and its replacement callback step the scanner as `Step` does |
| SourceMap.Step | dist/surplus.js:1085-1126 | one match of the scanner; the newline and start-marker cases are `OnNewline` and `OnSegmentStart` |
| SourceMap.Run | dist/surplus.js:1085-1126 | the scanner over a token list; `RunSemicolons` counts its `;` |
| SourceMap.Tokenize | dist/surplus.js:1055 | the matches of the marker pattern and the characters between them; `TokenizeCountsNewlines` keeps the newline count |
| SourceMap.Stripped | dist/surplus.js:1085-1126 | the text with every marker removed; `StripKeepsNewlines` and `StripPlainText` state what it keeps |
| SourceMap.Mappings | dist/surplus.js:1076-1132 | the `mappings` string of a text; it has one `;` per newline (`ScanResult`) |
| SourceMap.ExtractMappings | dist/surplus.js:1076-1132 | `src` is the text with every marker removed; `mappings` is what the scanner builds, with one `;` per newline of the input |
| SourceMap.ScanResult | dist/surplus.js:1076-1132 | the scan's output is the stripped text, and its mappings hold one `;` per input newline |
| SourceMap.StripKeepsNewlines | dist/surplus.js:1085-1126 | stripping removes no newline |
| SourceMap.ParseNatToString | dist/surplus.js:1068-1070 | `parseInt` reads back the decimal text a start marker holds |
| SourceMap.StartMarkerMatches | dist/surplus.js:1068-1070 | the scanner reads back the line and column a generated start marker carries |
| SourceMap.StripSegmentStart | dist/surplus.js:1068-1070 | stripping removes a generated start marker and keeps what follows |
| SourceMap.StripSegmentEnd | dist/surplus.js:1072-1074 | stripping removes a generated end marker and keeps what follows |
| SourceMap.StripPlainText | dist/surplus.js:1085-1126 | text without NUL passes through unchanged |
| SourceMap.TokensShift | dist/surplus.js:1055 | the matches after a prefix do not depend on the prefix |
| SourceMap.CorrectedColumnIsOutputColumn | dist/surplus.js:1104 | in the corrected scanner, a segment's generated column is its column in the output |
| SourceMap.CorrectedRunSegment | dist/surplus.js:1103-1121 | in the corrected scanner over any token list with no copied newline, the segment recorded at a start token carries the output column of the state before it |
| SourceMap.CorrectedSegmentsAtOutputColumn | dist/surplus.js:1103-1121 | for every start marker of a text, the corrected scanner records the column at which the segment starts in the stripped output |
| SourceMap.Widths | dist/surplus.js:1085 | the characters a prefix of the matches covers: the `offset` of the next match |
| SourceMap.RunSnoc | dist/surplus.js:1085-1126 | scanning a list and then one more match equals one step at the offset just past the list |
| SourceMap.CorrectedScanTracksOutputLine | dist/surplus.js:1085-1126 | every state the corrected scanner reaches, after each prefix of the matches and at the end, knows where the output's current line starts |
| SourceMap.TwoSegmentsRun | dist/surplus.js:1076-1132 | on two segments `a`, `b` the output is `ab`, and the second segment's column is 8 as written and 1 corrected |
| SourceMap.GeneratedColumnCountsMarkers | dist/surplus.js:1104 | as written, the generated column counts the marker characters: 8 where the output column is 1 |
| SourceMap.CreateMap | dist/surplus.js:1144-1153 | a version 3 map with one source `in.js` holding the original text |
| SourceMap.ExtractMap | dist/surplus.js:1134-1142 | the stripped text, and a version 3 map whose `mappings` has one `;` per output line; its columns are the corrected scanner's (the output column), not the as-written `offset - linestart` |
| ParseRegex.AllWsAppend | dist/surplus.js:1367 | whitespace text stays whitespace when joined |
| ParseRegex.IsSpace | dist/surplus.js:1367 | JavaScript's `\s`: the white-space and line-terminator code points |
| ParseRegex.AllWs | dist/surplus.js:1367 | `rx.ws`, `/^\s*$/`: every character is white space; `AllWsAppend` keeps it under joining |
| ParseRegex.NullMatches | dist/surplus.js:1777-1788 | at the end of input, the token read as `null` matches the name patterns |
| ParseRegex.PrefixLen | dist/surplus.js:1362 | the length of the `embeddedCodePrefix` match, never past the token |
| ParseRegex.InterimEnd | dist/surplus.js:1363 | where the `.name` chain of `embeddedCodeInterim` ends, between k and the token's end |
| ParseRegex.DirectiveNameLen | dist/surplus.js:1365 | the length of the `directiveName` match; a match starts with a name character |
| ParseRegex.SuffixLen | dist/surplus.js:1364 | the anchored suffix expression's match length, never past the token; the intended half of the suffix finding |
| ParseRegex.MatchLen | dist/surplus.js:1362-1368 | the length SPLIT takes for each expression, never past the token |
| ParseRegex.EscapedEnd | dist/surplus.js:1366 | `stringEscapedEnd`: an odd run of backslashes at the end with another character before it |
| ParseRegex.SuffixAsWritten | dist/surplus.js:1364 | as written a match is `++` at the start or `--` anywhere |
| ParseRegex.SuffixAsWrittenTakesWrongText | dist/surplus.js:1364 | as written, on ` a--b` the pattern matches `--` at index 2 while SPLIT removes the first two characters |
| ParseRegex.SuffixTakesMatchedText | dist/surplus.js:1364 | with the anchor on both alternatives, SPLIT takes exactly `++` or `--` |
| ParseRegex.PropertyLeftSide | dist/surplus.js:1361 | a match starts at a whitespace character and has a non-empty name |
| ParseRegex.NameLen | dist/surplus.js:1361 | the greedy name is followed by an assignment tail |
| ParseRegex.TrailingWs | dist/surplus.js:1369 | the counted characters are whitespace |
| ParseRegex.TrimTagWs | dist/surplus.js:1369 | dropping the spaces before `>` or `/>` keeps the closer and the first character |
| ParseRegex.DropEmptyLines | dist/surplus.js:1370 | removing empty lines never lengthens the text and keeps its first character |
| ParseRegex.DropEmptyLinesNoNewline | dist/surplus.js:1370 | text without newlines is unchanged |
| ParseRegex.SplitColons | dist/surplus.js:1610 | `split(":")` gives at least one part, the first non-empty for a name |
| ParseRegex.SplitColonsJoin | dist/surplus.js:1610 | joining the parts back with `:` gives the name |
| ParseRegex.SplitColonsParts | dist/surplus.js:1610 | no part holds `:` |
| ParseRegex.ParensAsWritten | dist/surplus.js:1373-1377 | as written, the lookup finds the three brackets and every inherited object member |
| ParseRegex.Inherited | dist/surplus.js:1373-1377 | the members every plain object inherits, which the as-written lookup also finds |
| ParseRegex.ParensAsWrittenOpensOnMember | dist/surplus.js:1773-1775 | as written, `constructor` counts as an opening bracket |
| ParseRegex.Parens | dist/surplus.js:1373-1377 | only `(`, `[`, `{` have a closer, a different one-character token |
| ParseRegex.ParensAgree | dist/surplus.js:1373-1377 | the intended lookup agrees on the brackets and rejects every inherited name |
| Parse.Parser.constructor | dist/surplus.js:1380-1385 | the cursor at the first token, line, column and position 0, EOF exactly for no tokens |
| Parse.Parser.Here | dist/surplus.js:1790-1792 | `LOC()` is line, column and position |
| Parse.Parser.MarkHere | dist/surplus.js:1794-1802 | `MARK()` saves token, index, EOF, line and column |
| Parse.Parser.ParensOf | dist/surplus.js:1773-1775 | `PARENS()` with the intended lookup: a closer only away from EOF, and only for `(`, `[` or `{`; the as-written lookup is `ParensAsWritten` |
| Parse.Parser.Next | dist/surplus.js:1740-1746 | a newline moves to the next line; any other token moves column and position by its length; the cursor takes the next token; the consumed text grows by the token |
| Parse.Parser.Take | dist/surplus.js:1779-1784 | the matched prefix is taken, column and position move by its length, and an emptied token advances |
| Parse.Parser.Split | dist/surplus.js:1777-1788 | no match changes nothing and gives null; at EOF a match on `null` is an error; otherwise the prefix the expression matches is taken and consumed. For the suffix expression this is the anchored one (`SuffixLen`), where the as-written SPLIT takes the first two characters even when `--` matches later |
| Parse.Parser.RollbackAsWritten | dist/surplus.js:1804-1810 | restores what MARK saved and leaves POS where it was |
| Parse.Parser.Rollback | dist/surplus.js:1804-1810 | also restores POS, so the cursor realigns |
| Parse.RollbackDrift | dist/surplus.js:1431-1437 | on `<a></a> x`, as written, the html-literal loop marks at the whitespace after the element, takes it and rolls back: the cursor is back at offset 7 while POS is 8 |
| Parse.RollbackRealigns | dist/surplus.js:1431-1437 | with POS restored, the same steps leave POS at 7, the cursor's offset |
| Parse.AtTrailingText | dist/surplus.js:1423-1431 | the cursor after the element of `<a></a> x`: at the whitespace token, offset 7, with POS aligned |
| Parse.Parser.TakeUntil | dist/surplus.js:1530-1533 | collects tokens up to the first one equal to `stop`, or EOF |
| Parse.Parser.CodeTopLevelAt | dist/surplus.js:1389-1414 | ends at EOF with well-segmented code; all-code input gives one segment holding all consumed text at the start location |
| Parse.Parser.TopLevelItem | dist/surplus.js:1395-1408 | one round advances and keeps the segments well formed |
| Parse.Parser.CodeChunk | dist/surplus.js:1400-1408 | a string, comment, or else exactly one token is added to the text |
| Parse.Parser.HtmlLiteralAt | dist/surplus.js:1416-1444 | refuses outside an html start; yields a non-empty node list whose whitespace texts lie between other nodes |
| Parse.Parser.LiteralItem | dist/surplus.js:1423-1440 | an element, comment or insert is appended; whitespace is kept only when an html node follows, otherwise it is rolled back with the realigning `Rollback` and the literal ends |
| Parse.Parser.HtmlElementAt | dist/surplus.js:1446-1504 | refuses outside `<`; all-attribute tokens to EOF give `unterminated start node` at the start location; `<` then `/>` gives the empty element; `<` `>` at EOF gives `element missing close tag`, and `</` with no `>` after it `eof while looking for element close tag`; the begin tag starts with `<`; a non-empty end tag has the form `</ … >` and is the tail of the consumed text; with no properties, directives or content the begin tag is the consumed text, trimmed |
| Parse.Parser.StartTagAt | dist/surplus.js:1446-1477 | the begin tag starts with `<`; all-attribute tokens to EOF give `unterminated start node`; `>` or `/>` right after `<` gives the trimmed two-token tag and the content flag; with no properties or directives the tag is the consumed text, trimmed |
| Parse.Parser.StartTagClose | dist/surplus.js:1470-1477 | EOF gives `unterminated start node` at the start location; otherwise the closer joins the tag, which is trimmed, is consumed, and fixes the content flag |
| Parse.TagConsumed | dist/surplus.js:1457-1474 | a tag grown by the consumed text, closed by one more token, is exactly what was consumed since `<` |
| Parse.Parser.StartTagAttributes | dist/surplus.js:1459-1468 | the attribute loop ends at EOF, `>` or `/>` and only adds properties and directives; it stops at once on `>` or `/>`, runs to EOF over plain tokens, and without new properties or directives the tag grows by exactly the consumed text |
| Parse.Parser.StartTagItem | dist/surplus.js:1461-1467 | one round only adds properties and directives; a plain token is appended to the tag text and consumed; without new properties or directives the tag grows by the consumed text |
| Parse.Parser.ElementContent | dist/surplus.js:1479-1501 | content then an end tag `</ … >` that ends the consumed text; EOF first gives `element missing close tag`; `</` with no `>` after it gives `eof while looking for element close tag`; an immediate `</` gives no content and the end tag is exactly the consumed text |
| Parse.Parser.ElementBody | dist/surplus.js:1479-1503 | without content, the element is the tag alone and nothing is consumed; with content, the tag, then an end tag `</ … >` ending the consumed text, with the two close-tag errors |
| Parse.Parser.EndTagAt | dist/surplus.js:1494-1500 | from `</` to the first `>`: the end tag is exactly the consumed text; with no `>`, `eof while looking for element close tag` |
| Parse.Parser.ContentItem | dist/surplus.js:1481-1489 | one child node is appended |
| Parse.Parser.HtmlTextAt | dist/surplus.js:1506-1514 | tokens up to the next element, comment, insert or end tag |
| Parse.Parser.HtmlWhitespaceText | dist/surplus.js:1516-1524 | the whitespace tokens in a row, all whitespace |
| Parse.Parser.HtmlCommentAt | dist/surplus.js:1526-1540 | from `<!--` to the first `-->`; without one, `unterminated html comment` |
| Parse.Parser.HtmlInsertAt | dist/surplus.js:1542-1548 | `@` then non-empty embedded code |
| Parse.Parser.PropertyAt | dist/surplus.js:1550-1577 | refuses outside `=`; adds at most one property, with a non-empty name, and keeps the tag's first character; when no property is added the tag text grows by exactly the consumed text |
| Parse.Parser.PropertyHead | dist/surplus.js:1557-1561 | `=`, an optional `>` and whitespace join the tag text, which grows by exactly the consumed text |
| Parse.Parser.ArrowAndWs | dist/surplus.js:1559-1561 | an optional `>`, which marks a callback, and whitespace: exactly the consumed text |
| Parse.Parser.PropertyValue | dist/surplus.js:1563-1574 | the property with the given name and callback flag and non-empty code |
| Parse.Parser.DirectiveAt | dist/surplus.js:1579-1614 | refuses outside `@`; a non-empty name with non-empty code; attribute-style names and parameters hold no `:`; a `@name(...)` directive whose code is one text segment consumed `@`, the name and that text |
| Parse.Parser.ParenDirective | dist/surplus.js:1592-1597 | `@name(...)` keeps the name, has code, and one text segment is exactly the consumed text |
| Parse.Parser.AttrDirective | dist/surplus.js:1599-1613 | the name and parameters rejoin with `:` to the directive name; a missing `=` is the `unrecognized directive` error |
| Parse.Parser.AttrDirectiveHead | dist/surplus.js:1600-1608 | an optional whitespace token, `=`, an optional `>`, and leading whitespace; a missing `=` is the error |
| Parse.Parser.SkipWs | dist/surplus.js:1600 | a whitespace token is skipped, any other token left in place |
| Parse.Parser.CallbackArrow | dist/surplus.js:1606 | a `>` after the `=` marks a callback and is consumed; otherwise the cursor stays |
| Parse.Parser.EmbeddedCodeAt | dist/surplus.js:1616-1653 | success means non-empty segments; at EOF the `null` token error; nothing recognisable is `not in embedded code` at the start location; code that is one text segment is exactly the consumed text. It uses the intended suffix expression and bracket lookup |
| Parse.Parser.CodeHead | dist/surplus.js:1623-1632 | the prefix then the chain, exactly the consumed text; an empty result moves nothing; at EOF the `null` token error |
| Parse.Parser.Interim | dist/surplus.js:1628-1630 | the `.name` chain, which SPLIT cannot fail on: exactly the consumed text |
| Parse.Parser.CodeTail | dist/surplus.js:1643-1652 | the suffix (the anchored expression), then the error when nothing at all was found; from no segments the result is one text segment extending the text so far by the consumed text |
| Parse.Parser.ParensRound | dist/surplus.js:1634-1641 | one bracketed group then a chain: non-empty text, segments only extended by html literals, and without new segments the text grows by the consumed text |
| Parse.Parser.BalancedParensAt | dist/surplus.js:1655-1687 | refuses without an opening bracket; the text ends with the matching closer; segments only extended by html literals; without new segments the text grows by the consumed text; plain tokens to EOF with no closer give `unterminated parentheses`. The bracket lookup is the intended one |
| Parse.Parser.ParensRest | dist/surplus.js:1662-1686 | the loop to the closer: the text ends with it, segments grow only by html literals, and plain tokens to EOF give `unterminated parentheses` |
| Parse.CodeSoFarStep | dist/surplus.js:1634-1641 | a round that keeps the code text equal to the consumed text keeps it so |
| Parse.CodeSoFarEnd | dist/surplus.js:1643-1648 | when the code ends as one text segment, that segment is exactly the consumed text |
| Parse.TextSinceTrans | dist/surplus.js:1662-1680 | text grown by the consumed text in two steps grew by it in one |
| Parse.TagSinceTrans | dist/surplus.js:1460-1468 | a tag grown by the consumed text in two steps grew by it in one |
| Parse.GrewTrans | dist/surplus.js:1662-1680 | segments grown by html literals in two steps grew so in one |
| Parse.Parser.ParensItem | dist/surplus.js:1662-1680 | one round extends the segments only by an html literal; a plain token is appended and consumed; without new segments the text grows by the consumed text |
| Parse.Parser.QuotedString | dist/surplus.js:1689-1706 | from a quote token to the first equal token that no odd run of backslashes escapes; at EOF `unterminated string` |
| Parse.Parser.QuoteStep | dist/surplus.js:1697-1699 | one token joins the string |
| Parse.Parser.QuotedFrom | dist/surplus.js:1690-1705 | past the opening quote, the string runs to the first quote with no odd backslash run before it and is consumed whole; EOF first gives `unterminated string` |
| Parse.Parser.QuoteLoop | dist/surplus.js:1697-1699 | the loop stops at EOF or at a quote the text so far does not escape; every quote passed was escaped |
| Parse.Parser.QuoteClose | dist/surplus.js:1703 | the closing quote joins the string and is consumed |
| Parse.Parser.SingleLineComment | dist/surplus.js:1708-1721 | from `//` through the next newline token or EOF |
| Parse.Parser.MultiLineComment | dist/surplus.js:1723-1737 | from `/*` to the first `*/`; without one, `unterminated multi-line comment` |
| Parse.ParseTokens | dist/surplus.js:1379-1387 | a successful parse is well segmented; input with no html is one code segment holding all the tokens, at line 0, column 0 |
| CodeGen.CodeStr | dist/surplus.js:1939-1944 | the result starts and ends with `'` |
| CodeGen.ReplaceAllAppend | dist/surplus.js:1940-1942 | a global replace distributes over concatenation |
| CodeGen.ReplaceAll | dist/surplus.js:1940-1942 | `replace(/c/g, rep)`: when `rep` holds no `c`, no `c` is left; `ReplaceAllAppend` distributes it over joining |
| CodeGen.ReplacementsAreEscape | dist/surplus.js:1940-1942 | the three replaces escape each character on its own |
| CodeGen.UnquoteEscape | dist/surplus.js:1939-1944 | for text without a carriage return, the escaped text's literal value is the text without line breaks |
| CodeGen.CodeStrValue | dist/surplus.js:1939-1944 | for text without a carriage return, `codeStr` yields a well-formed literal whose value is the text less its line breaks |
| CodeGen.CodeStrRoundTrip | dist/surplus.js:1939-1944 | with carriage returns escaped as well, text without line feeds comes back whole |
| CodeGen.CodeStrCarriageReturn | dist/surplus.js:1939-1944 | as written, `codeStr` of text with a carriage-return line end has no literal value: the raw CR cannot stand in a string literal |
| CodeGen.CodeStrFixed | dist/surplus.js:1939-1944 | the corrected `codeStr`, which also escapes a carriage return as `\r`, still starts and ends with `'` |
| CodeGen.FixedReplacementsAreEscape | dist/surplus.js:1940-1942 | the four replaces of the corrected version escape each character on its own |
| CodeGen.UnquoteEscapeFixed | dist/surplus.js:1939-1944 | the corrected escape's literal value is the text without line feeds, for any text |
| CodeGen.CodeStrFixedValue | dist/surplus.js:1939-1944 | the corrected `codeStr` yields a well-formed literal for every text, whose value is the text less its line feeds |
| CodeGen.FixedReplacementsChar | dist/surplus.js:1940-1942 | on one character the four replaces give its corrected escape |
| CodeGen.FixedReplacementsAppend | dist/surplus.js:1940-1942 | the four replaces distribute over concatenation |
| CodeGen.ReplaceAllShort | dist/surplus.js:1940-1942 | a replace on one or two characters, spelled out |
| CodeGen.Unquote | dist/surplus.js:1939-1944 | the value of a literal body for the escapes `codeStr` writes: never longer than the body, None on a bare quote, line feed or carriage return |
| CodeGen.LiteralValue | dist/surplus.js:1939-1944 | the value of a whole single-quoted literal, never longer than its body |
| CodeGen.DropNewlines | dist/surplus.js:1942 | the text less its line feeds: no line feed is left |
| CodeGen.CallbackParam | dist/surplus.js:1947 | an `on…` name passes the event name, any other `__` |
| CodeGen.GenCallback | dist/surplus.js:1946-1949 | `function (p) { code }`: it opens with `function (` and closes with ` }`, and `GenCallbackParses` reads it back |
| CodeGen.ParseCallback | dist/surplus.js:1946-1949 | an independent reader of callbacks: the parameter holds no `)`, and the two parts are all but the 16 fixed characters |
| CodeGen.GenCallbackParses | dist/surplus.js:1946-1949 | the callback reads back into its parameter and the code it wraps |
| CodeGen.CallbackTextParses | dist/surplus.js:1948 | text `function (p) { code }` with no `)` in `p` reads back into `p` and `code` |

## Left out

- I/O, the DOM, timers and the clock. The DOM runtime of `dist/surplus-runtime.js`, `Date.now`, `setTimeout` and `clearTimeout` are outside the model. `throttle` and `debounce` are installed by `FormulaOptions.OptionsBuilder.Schedule` as schedulers but not run.
- User code is not executed:
  - formula bodies are scripts of actions, and user callbacks are tags recorded in a log;
  - a scheduler's wrapper is recorded as a hand-off, and what the scheduler does later is in module `Schedulers`;
  - in SArray the callbacks are total Dafny functions, or recorded effects that are never run, so they cannot throw or re-enter.
- Core.Update, Core.NewFormula and the other interpreter functions are bounded by fuel. A run that exhausts it ends in `OutOfFuel`, which has no JavaScript counterpart (a stack overflow is the nearest).
- A formula's value is the value of the last action of its body.
- Object identity, `===` and aliasing:
  - graph objects are arena indices;
  - SArray items are `int`s compared by equality;
  - an array a formula returns is a value, so later in-place changes through aliases are not modelled;
  - `S.array`'s `values` is the field the mutators reassign, not a shared JavaScript array.
- `sort` and `orderBy` are not modelled: they depend on a user comparator and on `Array.prototype.sort`, which the language leaves implementation-defined.
- `transformer`, `S.array` construction and `toJSON` are not modelled; they only attach methods.
- The tokenizer is not modelled. The parser takes the token list as input, and `TokenStream` is not part of this model.
- Code generation: only `codeStr` and `genCallback` are modelled. `genCode` over the AST, `appendMap` (JSON and `escape`) and the `sourceMappingURL` comment are left out.
- `ERR` location fragments: error results carry the message and the location, not the 30-character excerpt text.
- Parse.Parser.Split: COL and POS moving on before the throw on a `null` token are not modelled; nothing can observe them after the error.
- String lengths count Dafny characters, not UTF-16 code units.
- Regular expressions are written as functions for the patterns the parser uses. They are not a general regex engine.
- CodeGen.Unquote evaluates only the escapes `codeStr` writes. Other JavaScript escapes give `None`.
- Registry.Registry.Define: a module function that throws or calls `define` itself is not modelled; `fn` is a total function.
- The CommonJS, AMD and global exports at the end of the bundle's wrapper are not modelled.
- Graph.Overseer.NewDependency requires that the target has no dependency on the source yet. That is the only way `addSource` calls it.
- SourceMap.Vlq: the shift `num << 1` wraps to 32 bits. Only a value that wraps to a negative number prints text containing `undefined`; one that wraps to a non-negative number prints that number's digits (2^31 prints `A`). The round trip is proved only for values whose shift does not wrap.
- SourceMap.ExtractMap: the map is built with the corrected column, the output column. As written, `extractMappings` measures the column in the text that still holds the markers (line 1104), which `SourceMap.GeneratedColumnCountsMarkers` exhibits.
- DisposeRunsCleanupsThenFinalizers: the exact log is stated only when both lists hold user callbacks. A finalizer that is a pinned sub-formula's dispose changes more than the log. `CoreLaws.BeginKeepsFinalizers` states for any finalizers that a re-run leaves them alone.
- ExplicitSourcesStay: stated for a body that only calls signals, whose cleanups are user callbacks and whose source has no subscribers. Bodies that write, create sub-formulas or trigger propagation are not covered.
- The parser runs the intended halves of the three parser findings below, not the code as written. Each member this affects is listed on its own line.
- Split (Parse.Parser.Split): the suffix expression is the anchored one (`SuffixLen`). As written, a token with `--` anywhere in it matches, and SPLIT takes its first two characters.
- CodeTail (Parse.Parser.CodeTail): through Split, the suffix is the anchored one. On the tokens `@`, `count`, ` items -- more` the code text is `count`, while as written it is `count--` and the token goes on as `tems -- more`.
- EmbeddedCodeAt (Parse.Parser.EmbeddedCodeAt): it uses the anchored suffix, as CodeTail does, and the intended bracket lookup, as ParensOf does. So its text differs on ` items -- more`, and it accepts a `constructor` token where the source throws. Parse.Parser.HtmlInsertAt, Parse.Parser.PropertyValue and Parse.Parser.AttrDirective call it and inherit both differences.
- ParensOf (Parse.Parser.ParensOf): the bracket lookup is the intended one (`Parens`). As written, an inherited member name such as `constructor` is found too. It then opens a group that runs to EOF and throws `unterminated parentheses`.
- BalancedParensAt (Parse.Parser.BalancedParensAt): it opens and closes groups by the intended lookup, so a `constructor` token is plain code.
- ParensRound (Parse.Parser.ParensRound): it loops on the intended lookup.
- ParensItem (Parse.Parser.ParensItem): it recurses on the intended lookup.
- LiteralItem (Parse.Parser.LiteralItem): it rolls back with the realigning `Rollback`. As written, POS stays past the rolled-back whitespace, so every later `LOC().pos` in the tree is shifted.
- HtmlLiteralAt (Parse.Parser.HtmlLiteralAt): its nodes carry the realigned positions of LiteralItem.
- ParseTokens (Parse.ParseTokens): it parses with the intended halves above. Its round trip is stated only for input without html; for input with html literals the contract says only that the segments are well formed.
- HtmlElementAt (Parse.Parser.HtmlElementAt): the begin tag is tied to the consumed text only when the element has no properties, no directives and no content. The content nodes and a begin tag from which properties or directives were taken out are not tied to the tokens they came from.
- CodeGen.Unquote: a backslash before a carriage return, which JavaScript also reads as a line continuation, is not modelled. The corrected `codeStr` never writes one.

## Findings

| source | as written | input that shows it | evidently intended | confidence | as-written member | corrected member |
|---|---|---|---|---|---|---|
| dist/surplus.js:1104 | the generated column is `offset - linestart`, measured in the text that still holds the markers | two segments `a` and `b` on one line: output `ab`, recorded column 8 | the column in the output text, 1 | not executed | SourceMap.GeneratedColumnCountsMarkers | SourceMap.CorrectedColumnIsOutputColumn |
| dist/surplus.js:524 | `compose()` calls `f(g())`, dropping the update it is given | `S.on(a).defer().defer().S(fn)`: the innermost call is `undefined` | `compose(u)` calls `f(g(u))` | not executed | FormulaOptions.AppliedComposedDropsUpdate | FormulaOptions.AppliedFixedKeepsUpdate |
| dist/surplus.js:393-407 | `pause(when(l))` sets `scheduled`, and `when` drops `resume` when a predicate is undefined, so `scheduled` is never cleared | a trigger with a predicate undefined, then one with all defined: `update` never runs | a dropped trigger leaves nothing pending | not executed | Schedulers.GatedTriggerSticks | Schedulers.GatedRunFixedUpdates |
| dist/surplus.js:1364 | `/^\+\+|--/` anchors only `++`, so `--` matches anywhere, and SPLIT removes the first characters of the token | token ` a--b`: `--` is matched at index 2 and ` a` is taken | `/^(?:\+\+|--)/` | not executed | ParseRegex.SuffixAsWrittenTakesWrongText | ParseRegex.SuffixTakesMatchedText |
| dist/surplus.js:1773-1775 | `parens[TOK]` on a plain object finds inherited members | token `constructor` after embedded code counts as an opening bracket | only `(`, `[` and `{` open | not executed | ParseRegex.ParensAsWrittenOpensOnMember | ParseRegex.ParensAgree |
| dist/surplus.js:1804-1810 | `ROLLBACK` does not restore `POS` | tokens `["<", "a", ">", "</", "a", ">", " ", "x"]` (`<a></a> x`): after the element `htmlLiteral` marks, takes `" "`, sees `x` and rolls back (1431-1437) — the cursor is at offset 7 and POS is 8; the drift shows only in the text of `ERR` messages and in the nodes' `LOC().pos` | POS restored with the rest | not executed | Parse.RollbackDrift | Parse.RollbackRealigns |
| dist/surplus.js:1939-1944 | `codeStr` escapes backslashes, quotes and line feeds, but leaves a carriage return raw, and a raw CR cannot stand in a JavaScript string literal | html text `a<CR><LF>b`, with Windows line ends: the generated literal is a syntax error | a carriage return escaped as `\r` | not executed | CodeGen.CodeStrCarriageReturn | CodeGen.CodeStrFixedValue |
