# Verified model of the compile-time instrumentation tool

The tool rewrites Go programs while they are compiled, so that hooks run around chosen functions, and
it edits the user's module and command lines on the way. This project models its hardest parts in
Dafny and proves what they promise. `dafny verify dfyconfig.toml` checks everything.

## What is modelled

**Trampoline jumps and their optimizer.** `TJumpSemantics` gives the generated statements a meaning
(traces of hook calls, a defer stack, returns and panics, after the sections "Defer statements" and
"Handling panics" of the Go specification). `TJumpChain` proves that a chain of jumps, generated or
optimized in any mixture, runs as nested advice; `TJumpTrace` gives the order of hook calls.
`HookLang` gives Before hooks a language with closures, method values, lists, loops and panics, proves
the flattening check sound and says exactly which hooks it accepts. `Naming`, `Instrument` and `Optimize` are the code that edits the
syntax tree in place; `Pipeline` composes them, and `HookedRun` closes the circle: with hooks that are
programs, calling the function as edited and optimized in place is running the advice of its rules.

**Ignored call sites.** `Bracket` is the rewrite that puts marked statements between calls that raise
and lower the suppression count; `BracketRuns` proves that whole programs with loops, jumps, panics
and recoveries behave as if each marked statement ran in a suppressed scope.

**Build lock.** `BuildLock` is the protocol as system calls of N processes that interleave, fail and
die; `BuildLockCalls` are the functions that take and release the lock, run by one process while the
others do anything they can.

**Crash-safe state.** `Storage` is the file system with a record of every state a killed process could
leave behind, and a plan of the calls that fail; `StateManager` tracks, reverts, discards and recovers
on top of it.

**Hygiene of injected code.** `Templates` is the compilation of a rule's template around an expression
of the target; `ImportDecls` are alias overrides and import insertion.

**Command lines.** `Goflags` (splitting, quoting at two levels, rewriting), `Args` (the argument
classifier), `ArgReading` (what each token means, said without a scan), `ArgEdits` (what the rewrites leave alone) and `Paths` (cleaning and joining paths).

**Ledgers and closures.** `AmqpLedger` and `AmqpInterleaving` (consumer spans, section 1.8.3.13 of the
AMQP 0-9-1 reference), `Injection` (the dependency fixpoint), `ToolFileWalk`, `Identity`,
`DirectiveArgs`, `EnclosingStmts`; `Decimal` are the numerals they print, and `Basics` is what several
modules share.

## What the proofs found

- A `Track` whose `Commit` fails leaves the path in memory; asking for the same path again then
  succeeds without writing the manifest, although the comment on `Track` (tool/internal/setup/state.go,
  lines 161-163) says the state is persisted before it returns. The cleanup after it can be killed at a
  moment from which nothing can be recovered (`StateManager.FailedCommitRun` is such a run). The exact
  condition: a cleanup without failing calls can be killed at any point if and only if the manifest
  names every tracked file that existed with content (`StateManager.Manager.Revert`,
  `StateManager.CleanupLocked`); absent and empty files do not matter.
- The runtime file placed behind the last file target is read as a target if and only if the directory
  of the first file target, once cleaned, does not begin with a dash, or `go build` has seen `--`
  (`ArgEdits.FileBuildArgsKeepKinds`). A target like `./-d/a.go` leads to the path
  `-d/otelc.runtime.go`, which is read as a flag (`ArgEdits.DashTarget`).
- `forceModMod` yields the intended tokens exactly when nothing is appended behind an unterminated
  quote (`Goflags.ForceSplits`).
- A path can be handed to a nested toolexec exactly when it has no quote at all, or needs no quotes
  and does not contain both kinds (`Goflags.NestedTokenExists`).
- The GOFLAGS value for nested go commands splits into the old tokens and the new one if and only if the
  old tokens are complete and the first does not begin with white space that splitting does not know,
  such as a vertical tab, which trimming removes (`Goflags.NestedRoundTrip`).
- A settlement "up to and including" a tag that runs while an earlier delivery of another consumer is
  between its two maps misses that delivery (`AmqpInterleaving.OverlapIsMissed`). A settlement that
  starts after the delivery has been entered never does (`AmqpInterleaving.LaterSettlementEnds`); the
  exact rule is `AmqpInterleaving.EndsExactlyTheSettled`.
- A directive above a `case` whose expressions hold a call makes statements appear between the clauses of
  the switch, which the section "Switch statements" of the Go specification does not allow; a list of
  clauses stays one exactly when no clause is marked (`Bracket.ClausesStayTogether`).
- Both measures of the build lock are needed: comparing inodes (`BuildLock.RecheckIsNeeded`), and that
  removal while holding fails only when the file is open (`BuildLock.FlakyRemovalBreaks`).
- The optimizer must look for mentions of `SetSkipCall`, not only for calls
  (`HookLang.MethodValueSkips`).

## Model

| member | source | states |
|---|---|---|
| TJumpChain.ChainIsAdvice | tool/internal/instrument/apply_func.go:168-246 | A function that starts with a right-nested chain of jumps, each generated or optimized, has the trace, final state, results and outcome of nested advice around its own body, for all hooks, bodies and numbers of rules |
| TJumpChain.OptimizedRunsAlike | tool/internal/instrument/optimize.go:356-410 | The optimized chain and the generated chain run alike: same hook and body trace, same results and state, same return or panic |
| TJumpChain.JumpSkips | tool/internal/instrument/apply_func.go:168-201 | When Before asks to skip, the jump calls After, returns with the results unchanged and registers no deferred call |
| TJumpChain.JumpEnters | tool/internal/instrument/apply_func.go:168-201 | Otherwise exactly the After call is deferred, with the context Before returned, and the next jump runs |
| TJumpSemantics.BeforeSkips | tool/internal/instrument/impl.tmpl:76-95 | A Before trampoline asks to skip exactly when its hook ran, did not panic, and set the flag of the context built for it; it always returns |
| TJumpTrace.HookOrder | tool/internal/instrument/apply_func.go:203-246 | Befores 1..k run in order, k the first that skips or the last; the body runs in between exactly when nobody skips, then afters k..1, and panics of the body pass through |
| HookLang.CanFlattenIsSound | tool/internal/instrument/optimize.go:205-275 | A hook the check accepts never leaves skip set on the context built for its call, whatever it does with closures, method values, stored data and other contexts, and however it ends |
| HookLang.AcceptsExactly | tool/internal/instrument/optimize.go:216-275 | The check accepts exactly the hooks that have no name for their context, or never select SetSkipCall from it and mention it nowhere once everything selected from it is erased |
| HookLang.MethodValueSkips | tool/internal/instrument/optimize.go:205-275 | A hook that binds SetSkipCall to a variable and calls the variable skips although its context does not escape, and the check rejects it |
| HookedRun.FlatteningIsInvisible | tool/internal/instrument/optimize.go:280-410 | With Before hooks that are programs of the hook language, and everything else arbitrary, the optimized chain in front of any body behaves as the generated one; no assumption about skipping is left |
| HookedRun.FlatHookNeverSkips | tool/internal/instrument/optimize.go:205-275 | A trampoline whose hook passes the check returns skip = false |
| HookedRun.OptimizeChain | tool/internal/instrument/optimize.go:356-410 | Optimizing the jumps of a function in place, declarations included, changes no call of it: the edited tree runs to the same outcome as before, and this fails exactly when a hook is missing |
| HookedRun.InstrumentFunction | tool/internal/instrument/apply_func.go:397-449 | Naming, insertion and optimization together: calling the edited function is running the advice of the rules not applied before, nested in their order, around its own statements |
| Naming.Namer.Next | tool/internal/instrument/apply_func.go:59-82 | The search for a fresh name ends, and the name is new, well formed and from then on taken |
| Naming.SyntheticInjective | tool/internal/instrument/apply_func.go:59-82 | Two synthetic names with the same prefix and hash differ when their indices do |
| Naming.CollectReturnValues | tool/internal/instrument/apply_func.go:84-113 | Unnamed and blank results get fresh distinct names, given names stay in place, the returned list is the names in order; with all names given nothing changes |
| Naming.CollectArguments | tool/internal/instrument/apply_func.go:115-157 | The same for receiver and parameters |
| Naming.NameSignature | tool/internal/instrument/apply_func.go:248-258 | After both, every receiver, parameter and result is named, not blank and distinct from all others; original names are untouched, and doing it again changes nothing |
| Instrument.FindJumpPoint | tool/internal/instrument/apply_func.go:36-51 | Finds the else-block of the innermost jump of the chain, or nothing when the statement is no jump |
| Instrument.InsertToFunc | tool/internal/instrument/apply_func.go:203-246 | The new jump is nested in the innermost one, or becomes the first statement; an empty body gets an empty statement first |
| Instrument.InsertTJump | tool/internal/instrument/apply_func.go:248-303 | One more rule extends the chain by its jump, records it for the optimizer and declares its two trampolines |
| Instrument.ApplyFuncRules | tool/internal/instrument/apply_func.go:397-449 | Applying rules in order leaves a chain with one jump for each rule not applied before, in that order, in front of the unchanged body |
| Instrument.NewRulesDistinct | tool/internal/instrument/apply_func.go:397-449 | No identity is inserted twice |
| Instrument.NewRulesCover | tool/internal/instrument/apply_func.go:397-449 | Every identity asked for and not applied before is inserted, and nothing else |
| Instrument.ValueIsChain | tool/internal/instrument/apply_func.go:36-51 | The statements that linked nodes stand for are the right-nested chain of their rules |
| Optimize.RemoveDecl | tool/internal/instrument/optimize.go:188-199 | Removes the declaration with the given name and no other, and says whether there was one |
| Optimize.RemoveAfterTrampolineCall | tool/internal/instrument/optimize.go:93-117 | Empties the deferred and the direct After call and blanks the context, leaving the nested jumps |
| Optimize.NewHookContextImpl | tool/internal/instrument/optimize.go:122-152 | The literal context carries the target's arguments and results under the names already collected; collecting again renames nothing |
| Optimize.RemoveBeforeTrampolineCall | tool/internal/instrument/optimize.go:154-186 | The jump always enters and defers After with a literal context; the Before trampoline goes |
| Optimize.FlattenTJump | tool/internal/instrument/optimize.go:280-349 | Condition false, empty body, and only the result that is still used is bound |
| Optimize.OptimizeTJump | tool/internal/instrument/optimize.go:356-410 | One jump takes its optimized form, its nesting and its target stay; it no longer branches exactly when there is no Before hook or one that uses nothing but other methods of its context; exactly the trampolines of missing hooks are undeclared; it fails exactly when its Before hook cannot be found |
| Optimize.OptimizeTJumps | tool/internal/instrument/optimize.go:356-410 | The same for all jumps of a file, each independent of the others |
| Pipeline.NeededStay | tool/internal/instrument/optimize.go:356-410 | Every trampoline that an optimized jump still calls keeps its declaration |
| Pipeline.ChainDeclared | tool/internal/instrument/apply_func.go:255-301 | The declared trampolines are those the generated chain calls, each once |
| Pipeline.InstrumentFunction | tool/internal/instrument/optimize.go:356-410 | Naming, insertion and optimization together leave the optimized chain of the applied rules and the declarations it needs, and fail exactly when a hook is missing |
| Bracket.BracketList | tool/internal/instrument/apply_call.go:707-746 | The loop that splices while moving its index terminates and equals the expansion; otherwise it stopped at the first statement that cannot be bracketed |
| Bracket.ExpandsInOrder | tool/internal/instrument/apply_call.go:707-778 | Statement by statement: one with a call of its own and the directive is put between the five inserted ones, its flag numbered by the brackets before it; any other is kept as it is |
| Bracket.ExpandKeepsOwn | tool/internal/instrument/apply_call.go:707-746 | Without what was inserted a list is what it was, and five statements were inserted for each one with a call of its own and the directive |
| Bracket.AcceptedMeans | tool/internal/instrument/apply_call.go:716-738 | A list is rewritten exactly when each such statement contains no jump and, with everything nested in it, one call |
| Bracket.ChecksMean | tool/internal/instrument/apply_call.go:782-814 | Both recursive checks are what looking at all statements nested in one finds |
| Bracket.File.BracketMarkedStmts | tool/internal/instrument/apply_call.go:707-746 | One list of the file is rewritten, the others are untouched, the counter moves by the number of brackets |
| Bracket.File.ApplyIgnoredCallSites | tool/internal/instrument/apply_call.go:635-666 | All lists are expanded with consecutive flag numbers; it succeeds exactly when every marked statement can be bracketed, although nested lists are rewritten later than the checks look at them |
| Bracket.FlagsCountUp | tool/internal/instrument/apply_call.go:754-778 | A rewritten list defines one flag for each marked statement, numbered upwards |
| Bracket.FlagsAreUnique | tool/internal/instrument/apply_call.go:754-778 | No two guard variables of a file share a number |
| Bracket.StmtLooksBelow | tool/internal/instrument/apply_call.go:782-814 | The two checks depend only on lists nested in the statement |
| Bracket.ClausesStayTogether | tool/internal/instrument/apply_call.go:685-746 | A list is left as it is, and keeps nothing but the statements of the program, exactly when none of them has a call of its own and the directive; this decides whether the clauses of a switch stay together |
| BracketRuns.BracketingIsScoping | tool/internal/instrument/apply_call.go:754-778 | A call of a bracketed function ends with the suppression count it began with and behaves as its source with marked statements in a suppressed scope; at any depth own calls of statements with the directive are made at a count one above that of their activation, and all other calls, deferred ones included, at that count |
| BracketRuns.CallAlike | tool/internal/instrument/apply_call.go:707-778 | Calling any function, bracketed or scoped, does the same with returns, loops, panics and recoveries anywhere |
| BracketRuns.BracketAlike | tool/internal/instrument/apply_call.go:754-778 | A bracketed statement that falls through has closed its bracket; a panic leaves exactly one bracket open, whose fallback is on top of the deferred calls |
| BracketRuns.DefersAlike | tool/internal/instrument/apply_call.go:754-778 | The deferred fallback lowers the count once exactly when its bracket was left open |
| BracketRuns.CallSound | instrumentation/runtime/runtime_gls.go:24-42 | In the scoped reading the count never changes across a call, and every call is made one above the base of its activation inside a statement with the directive and at the base everywhere else |
| BuildLock.StepKeepsInv | tool/internal/setup/lock.go:128-198 | Every system call of every process, failures and crashes included, keeps the invariant: who is inside locks the file the path names |
| BuildLock.AtMostOneHolder | tool/internal/setup/lock.go:55-65 | At most one process is inside at any time, for any number of processes and any interleaving, whether an open file can be removed or not |
| BuildLock.HolderKeepsPath | tool/internal/setup/lock.go:179-198 | Nobody else's step changes which file the path names while someone is inside |
| BuildLock.AttemptSucceeds | tool/internal/setup/lock.go:128-155 | In every reachable state in which nobody has a lock, an idle process left alone acquires it in one attempt |
| BuildLock.SoloAttempt | tool/internal/setup/lock.go:128-155 | An undisturbed attempt succeeds unless the file is locked, and then leaves no handle |
| BuildLock.RecheckIsNeeded | tool/internal/setup/lock.go:157-173 | Without comparing inodes two processes can be inside |
| BuildLock.FlakyRemovalBreaks | tool/internal/setup/lock.go:175-198 | If removal could fail for no reason, the second removal would break exclusion |
| BuildLockCalls.System.TryAcquire | tool/internal/setup/lock.go:128-155 | One attempt amid arbitrary steps of others: it acquires when opening, locking and comparing succeed, and gives up only after one of them did not, the handle closed; left alone it acquires exactly when the file is not locked |
| BuildLockCalls.System.AcquireBuildLock | tool/internal/setup/lock.go:75-120 | Polling makes attempts until one succeeds, and is given up only after every attempt has been made and failed; left alone with a free lock it acquires |
| BuildLockCalls.System.Release | tool/internal/setup/lock.go:179-198 | Releasing gives the lock up unless unlocking fails; it attempts to remove the file once, and a second time exactly when the first attempt failed and the lock was given up |
| BuildLockCalls.System.WithBuildLock | tool/internal/setup/lock.go:40-65 | Nested calls run under the outer lock without a call of their own; the body is left out only when no attempt acquired the lock, and runs when a first attempt finds it free; the lock is given up afterwards |
| BuildLockCalls.System.RunsAlone | tool/internal/setup/lock.go:55-65 | While a body runs, no other process is inside |
| Storage.Disk.CopyFile | tool/util/sys.go:65-114 | Success makes an exact copy with permissions; the destination is truncated first and at any moment, failed or killed, holds a prefix of the source, while nothing else changes; which calls fail decides how it ends |
| Storage.Disk.WriteFileAtomic | tool/util/sys.go:147-191 | At every moment the target has its old or its complete new content |
| StateManager.Manager.Track | tool/internal/setup/state.go:155-190 | A first call records the present content and persists it; a repeated call does nothing, written or not; a crash at any step leaves a recoverable state; when the manifest cannot be written the file is at risk |
| StateManager.Manager.TrackAll | tool/internal/setup/state.go:145-152 | Goes on after failures; if all succeed, everything tracked is in the manifest, otherwise only these paths can be missing from it |
| StateManager.Manager.Snapshot | tool/internal/setup/state.go:180-186 | A copy that is cut short never becomes something the manifest relies on |
| StateManager.Manager.Commit | tool/internal/setup/state.go:198-227 | The new manifest covers everything the old one did; the write is recoverable at each moment |
| StateManager.Manager.Modify | tool/internal/setup/state.go:155-164 | A change to a tracked and persisted file can be undone from what is on disk |
| StateManager.Manager.RevertOne | tool/internal/setup/state.go:258-270 | Giving one file back can be killed at any point if and only if the file is not at risk: not an existing file with content that the manifest fails to name |
| StateManager.Manager.Revert | tool/internal/setup/state.go:251-273 | Success, or a run without failing calls, gives back every tracked file, leaving other files, manifest and snapshots alone; without failing calls it succeeds exactly when no snapshot is missing; it can be killed at any point if no tracked file is at risk, and without failing calls only if |
| StateManager.Manager.Discard | tool/internal/setup/state.go:229-245 | After a revert, dropping manifest and snapshots is safe at every step, the moment between the two included |
| StateManager.CleanupLocked | tool/internal/setup/cleanup.go:30-79 | Without failing calls everything is restored and then, unless a snapshot was missing, manifest and snapshots are gone, and with the clean-all option the whole working directory; they are kept whenever something could not be restored, and other files are never touched; every intermediate state is recoverable if no tracked file is at risk, and without failing calls only if; with the manifest of an earlier process always |
| StateManager.Build | tool/internal/setup/setup.go:711-757 | A build that starts without a manifest, tracks before it changes and stops after the first step that fails does what its steps ask for and nothing else; it is recoverable at every step, and only paths that the last step was to track can be missing from the manifest |
| StateManager.RunBuild | tool/internal/setup/setup.go:711-757 | Build and cleanup: unless a call of the cleanup fails, every file of the user is as it was before the build, and manifest and snapshots are gone; always recoverable when all went well, otherwise if nothing was at risk when the cleanup began, and without failing calls in the cleanup only if |
| StateManager.Recover | tool/internal/setup/state.go:50-77 | After a crash, and after crashes during recovery, the next cleanup gives every tracked file back and then consumes the state |
| StateManager.Load | tool/internal/setup/state.go:50-77 | Reads back exactly what the manifest says |
| StateManager.DecodePush | tool/internal/setup/state.go:203-211 | Entries for absolute paths decode to the path and whether it existed |
| StateManager.DashIsAmbiguous | tool/internal/setup/state.go:203-211 | A path that began with a dash would be misread |
| StateManager.FailedCommitRun | tool/internal/setup/state.go:155-190 | A run for any path and any content: the manifest cannot be written, Track reports it once and not when asked again, and the cleanup restores the file through a state that cannot be recovered from |
| Templates.CompileMeans | tool/internal/instrument/call_template.go:267-334 | Rewriting first and splicing afterwards is hygienic: the rule's qualifiers are renamed simultaneously, names rendered from the target come back unchanged even when they equal an alias, wrapped expression and arguments are put in untouched |
| Templates.RuleQualifier | tool/internal/instrument/imports.go:174-192 | A qualifier written by the rule becomes the file's alias |
| Templates.TargetQualifier | tool/internal/instrument/imports.go:198-208 | A marked name from the target is never taken for an alias and loses its marker |
| Templates.ArgPlaceholder | tool/internal/instrument/call_template.go:396-425 | The placeholder of argument i is found as argument i and survives the steps before |
| ImportDecls.ParseFile | tool/internal/imports/imports.go:46-83 | The maps say under which names the file imports which paths, all of them and nothing else |
| ImportDecls.ResolveAliasOverrides | tool/internal/instrument/imports.go:145-163 | Exactly the rule aliases whose path the file imports only under other regular names are overridden, each by the smallest of these names |
| ImportDecls.OverridesAreDetermined | tool/internal/instrument/imports.go:158-160 | The overrides do not depend on the order in which maps are walked |
| ImportDecls.File.WithoutExisting | tool/internal/imports/imports.go:159-194 | Fails exactly when an alias stands for another path; drops exactly what the file can already refer to |
| ImportDecls.File.AddToFile | tool/internal/imports/imports.go:159-222 | Existing imports stay, no name ever stands for two paths, every requested import resolves or its path was known, and nothing else is added, in the order of the names |
| ImportDecls.AddRuleImports | tool/internal/instrument/imports.go:42-105 | Succeeds exactly when no name clashes or mismatches; then each requested name stands for its path, else nothing was changed |
| ImportDecls.AddableMeans | tool/internal/instrument/imports.go:42-105 | Name by name, when it succeeds: the path is there under that name, or no name was asked for, or path and name are both new |
| ImportDecls.UsedExactly | tool/internal/instrument/imports.go:317-355 | Of the imports that are not overridden the dot and blank ones are kept, and those whose name something in the file is selected from |
| ImportDecls.QualifierRefers | tool/internal/instrument/imports.go:317-355 | A qualifier that the rule uses stands, in the rewritten file, for the declared path and only for it |
| ImportDecls.InjectExpression | tool/internal/instrument/call_template.go:267-334 | Overrides, shadowing check, compilation and imports together: names are swapped exactly when the file has their path under other names only, each for the smallest; it succeeds exactly when none of these is hidden by a local name and the imports still used can be added, otherwise the file is unchanged; then the result means what the template means, every qualifier the rule wrote refers to the path the rule declared, and nothing is imported that is not used |
| Goflags.SplitGoflags | tool/util/go.go:100-130 | The index loop splits as the recursive definition does |
| Goflags.SplitPlain | tool/util/go.go:100-130 | A token that does not begin with a quote goes up to the next blank |
| Goflags.SplitQuoted | tool/util/go.go:100-130 | A token that begins with a quote goes up to the next such quote, or takes all that is left; the next one begins right behind |
| Goflags.SplitGivesTokens | tool/util/go.go:95-130 | Every piece is a complete token; only the last can lack its closing quote |
| Goflags.SplitJoin | tool/util/go.go:138-149 | Splitting what was joined gives the tokens back |
| Goflags.QuoteRoundTrip | tool/util/go.go:151-192 | A quoted token is one token that unquotes to the original; quoting fails exactly for text that needs quotes and has both kinds |
| Goflags.QuotesWhenNeeded | tool/util/go.go:173-192 | A token is left alone exactly when it has no blank and does not begin with a quote |
| Goflags.FlagRoundTrip | tool/util/go.go:194-204 | The value of the toolexec flag splits and unquotes into the path and "toolexec" |
| Goflags.NestedRoundTrip | tool/internal/instrument/toolexec.go:711-728 | The value GOFLAGS is set to, appended and trimmed, splits into the old tokens and the new one if and only if the old ones are complete and the value starts plainly; through both quoting levels exactly the path and "toolexec" are recovered |
| Goflags.TrimKeepsTokens | tool/internal/instrument/toolexec.go:720 | Exactly when trimming a value changes what it splits into |
| Goflags.NestedTokenExists | tool/internal/instrument/toolexec.go:669-692 | For which paths the nested token can be built: if and only if |
| Goflags.StripToolexec | tool/util/go.go:138-149 | The loop yields the other tokens joined |
| Goflags.StripIsPointwise | tool/util/go.go:138-149 | Token by token and in order: one that reads as a toolexec flag, bare or between quotes, goes, any other stays |
| Goflags.StripKeepsTheRest | tool/util/go.go:132-149 | The stripped value splits into exactly the tokens that are not toolexec flags, in order |
| Goflags.ForceModMod | tool/internal/setup/vendor.go:69-91 | The loop that overwrites and perhaps appends yields the rewritten tokens joined |
| Goflags.ForceSplits | tool/internal/setup/vendor.go:61-91 | The new value splits into the intended tokens if and only if nothing is appended behind an unterminated quote |
| Goflags.ForceSelects | tool/internal/setup/vendor.go:61-91 | No vendor token is left, some -mod token is there, every other token stays in place, and doing it twice changes nothing |
| Goflags.ForceReads | tool/internal/setup/vendor.go:69-91 | Every token that reads as a vendor selection, with one dash or two, bare or between quotes, becomes -mod=mod, any other stays; -mod=mod is added exactly when no token selects a module mode |
| Goflags.ForceIsIdempotent | tool/internal/setup/vendor.go:69-91 | Idempotent on strings |
| Args.ScanIsLossless | tool/internal/setup/args.go:40-48 | Item i has index i and the raw text of argument i |
| ArgReading.ScanReads | tool/internal/setup/args.go:334-436 | Every token gets the kind, name and value that it and the tokens in front of it give it, said without a scan: value of a flag, past the end of flags, delimiter, flag, package, value of an unknown flag, or argument of the test binary |
| ArgReading.ClaimedGoesOn | tool/internal/setup/args.go:297-332 | Behind an unknown flag and the token it claims flags go on |
| Args.ClassifyTestArgs | tool/internal/setup/args.go:379-436 | The loop with lookahead and mutable state agrees with a one-token automaton |
| Args.ClassifyBuildArgs | tool/internal/setup/args.go:334-377 | The same for build and install |
| Args.ClassifyTestFlagToken | tool/internal/setup/args.go:242-295 | A flag token and the value it consumes are classified as the automaton does |
| Args.ClassifyPositionalTestArg | tool/internal/setup/args.go:297-332 | A positional token is a package, the value of an unknown flag, or ends the list |
| ArgEdits.TestTargetsAreContiguous | tool/internal/setup/args.go:379-436 | The packages of go test are one contiguous run |
| ArgEdits.RewriteModVendor | tool/internal/setup/vendor.go:100-118 | Rewrites exactly the joined and separate vendor selections |
| ArgReading.RewriteReads | tool/internal/setup/vendor.go:100-118 | Exactly these tokens change: a build flag that reads -mod=vendor with one dash or two, and vendor as the value of a build flag that reads -mod |
| ArgEdits.ModModeKeepsKinds | tool/internal/setup/vendor.go:100-118 | Every token keeps its kind, and the scan its state between tokens |
| ArgEdits.ModModeIsComplete | tool/internal/setup/vendor.go:100-118 | No vendor selection is left |
| ArgEdits.DisableJSONOutput | tool/internal/setup/find.go:81-90 | Switches off exactly the JSON flags |
| ArgReading.JsonReads | tool/internal/setup/find.go:81-90 | Exactly the build flags that read -json, with one dash or two and any value, change |
| ArgEdits.WithoutJsonKeepsKinds | tool/internal/setup/find.go:81-90 | Every token keeps its kind |
| ArgEdits.AddedFlagsKeepKinds | tool/internal/setup/setup.go:572-587 | Flags added behind a leading -C are build flags, and all original tokens keep their kinds |
| ArgReading.AddedBehindC | tool/internal/setup/setup.go:572-587 | Added flags stand first, or right behind a leading -C and its directory |
| ArgEdits.LastFileTargetIndex | tool/internal/setup/setup.go:95-103 | The last file target, or -1 when there is none |
| ArgEdits.RuntimeFileIsTarget | tool/internal/setup/setup.go:609-620 | The inserted runtime file is a target and leaves every other kind alone if and only if its path does not look like a flag or flags are over |
| ArgEdits.BuildArgsKeepKinds | tool/internal/setup/setup.go:594-625 | The whole command line of an instrumented build without file targets keeps the kinds of all original tokens |
| ArgEdits.FileBuildArgsKeepKinds | tool/internal/setup/setup.go:594-625 | The whole command line with file targets: vendor rewrite, runtime file next to the first target and added flags together add one target and two build flags and change no other kind, if and only if the cleaned directory of the first target does not begin with a dash or flags are over |
| ArgEdits.DashTarget | tool/internal/setup/setup.go:609-620 | The failing family: a file in a directory below whose name begins with a dash, written with a dot in front, gets a runtime path that is read as a flag |
| ArgEdits.FlagsAreOver | tool/internal/setup/args.go:334-377 | The classifier of go build is past all flags exactly when one of the tokens before was the terminator |
| Paths.SiblingPath | tool/internal/setup/setup.go:612-613 | The runtime path consists of the cleaned components of the target's directory and the file name |
| Paths.SiblingDash | tool/internal/setup/setup.go:612-613 | It begins with a dash exactly when that directory is relative and its first component does |
| ArgEdits.GoFlagsFit | tool/internal/setup/args.go:51-73 | The real flag table has what the other lemmas ask of a table |
| AmqpLedger.Spans.EndEach | instrumentation/github.com/rabbitmq/amqp091-go/hook.go:504-515 | Each span ends at most once |
| AmqpLedger.Pending.Settle | instrumentation/github.com/rabbitmq/amqp091-go/hook.go:426-444 | Exactly the covered entries are taken out and ended |
| AmqpLedger.SettleSharedKeeps | instrumentation/github.com/rabbitmq/amqp091-go/hook.go:402-410 | Settling on the channel ends exactly the open deliveries it covers although consumers' maps keep stale entries |
| AmqpLedger.SettleLocalKeeps | instrumentation/github.com/rabbitmq/amqp091-go/hook.go:489-502 | Settling the consumer's map first changes nothing about the outcome |
| AmqpLedger.TagZeroCovers | instrumentation/github.com/rabbitmq/amqp091-go/hook.go:426-444 | Tag 0 covers only a delivery with tag 0, although with multiple it settles everything at the server |
| AmqpLedger.Ledger.Consume | instrumentation/github.com/rabbitmq/amqp091-go/hook.go:269-274 | A new consumer starts with an empty map and changes nothing else |
| AmqpLedger.Ledger.Deliver | instrumentation/github.com/rabbitmq/amqp091-go/hook.go:285-321 | A delivery is open afterwards, and no other changes |
| AmqpLedger.Ledger.AfterChannelSettle | instrumentation/github.com/rabbitmq/amqp091-go/hook.go:402-410 | The deliveries that stay open are those with another tag, or with multiple those with a greater one |
| AmqpLedger.Ledger.SettleDelivery | instrumentation/github.com/rabbitmq/amqp091-go/hook.go:464-502 | The same through a delivery, with or without the hook of the call it wraps |
| AmqpLedger.Ledger.ConsumerEnds | instrumentation/github.com/rabbitmq/amqp091-go/hook.go:269-283 | Exactly the consumer's own open deliveries end |
| AmqpLedger.Ledger.AfterShutdown | instrumentation/github.com/rabbitmq/amqp091-go/hook.go:386-400 | Nothing is open afterwards |
| AmqpInterleaving.StepKeepsInv | instrumentation/github.com/rabbitmq/amqp091-go/hook.go:412-454 | Every critical section and every ending keeps: in a map exactly while entered and not covered; over exactly when covered |
| AmqpInterleaving.EndsExactlyTheSettled | instrumentation/github.com/rabbitmq/amqp091-go/hook.go:412-515 | For any goroutines and any interleaving: no span ends twice, and once nobody is busy a span has ended exactly when something covered its delivery after it was entered in some map |
| AmqpInterleaving.LaterSettlementEnds | instrumentation/github.com/rabbitmq/amqp091-go/hook.go:285-321 | For the programs the hooks run: a settlement that starts after a delivery it covers has been entered ends its span, once, whatever else runs |
| AmqpInterleaving.LaterShutdownEnds | instrumentation/github.com/rabbitmq/amqp091-go/hook.go:386-400 | So does a shutdown of the channel that starts after the delivery has been entered |
| AmqpInterleaving.ConsumerLoopEnds | instrumentation/github.com/rabbitmq/amqp091-go/hook.go:269-283 | So does the end of the loop that handed the delivery out |
| AmqpInterleaving.UnsettledStaysOpen | instrumentation/github.com/rabbitmq/amqp091-go/hook.go:412-454 | A delivery stays open when only other tags are settled, and up to smaller ones, and neither its consumer nor its channel ends |
| AmqpInterleaving.MissedOnlyBefore | instrumentation/github.com/rabbitmq/amqp091-go/hook.go:412-454 | A span is missed only if every access that covers it in a map came before the delivery was entered there |
| AmqpInterleaving.OwnDeliveriesEnd | instrumentation/github.com/rabbitmq/amqp091-go/hook.go:269-283 | A consumer's loop, when it ends, ends every delivery it handed out, even if the channel shuts down meanwhile |
| AmqpInterleaving.OverlapIsMissed | instrumentation/github.com/rabbitmq/amqp091-go/hook.go:285-321 | A settlement overlapping an earlier delivery of another consumer can miss it |
| Injection.Visit | tool/internal/setup/inject.go:64-97 | Visits exactly the packages reachable from the roots, each once |
| Injection.HookPackagePaths | tool/internal/setup/inject.go:21-40 | Every hook package named by some rule, each once |
| Injection.InjectedDeps | tool/internal/setup/inject.go:44-99 | Exactly the reachable packages with Go files that are not known |
| Injection.RunInjectionPasses | tool/internal/setup/inject.go:110-139 | Terminates; the packages known in the end are those known before and those with Go files to which imports lead from a hook package of a matched rule; the rule sets returned are exactly those of the new packages, each once |
| Injection.ReachMeans | tool/internal/setup/inject.go:64-97 | The least set with the roots that is closed under imports is what paths of imports lead to |
| Injection.NothingIsMissed | tool/internal/setup/inject.go:101-139 | Whatever has Go files at the end of an import path from a hook package of a matched rule is known |
| ToolFileWalk.CollectImports | tool/internal/setup/config.go:185-224 | The blank imports not seen before, each once; fails exactly for a named import |
| ToolFileWalk.VisitImports | tool/internal/setup/config.go:250-279 | Visits exactly the imports that resolve and queues new tool files once; it succeeds exactly when no import of the list fails |
| ToolFileWalk.WalkInstrumentation | tool/internal/setup/config.go:227-282 | Ends on cyclic graphs; succeeds exactly when every tool file to which a chain of followed imports leads has blank imports only and none that fails; then it parsed exactly those tool files and visited exactly their resolving imports, each once |
| ToolFileWalk.WalkMeans | tool/internal/setup/config.go:227-282 | The same in terms of chains of imports, visited imports included |
| EnclosingStmts.Visitor.Walk | tool/internal/ast/shared.go:567-597 | Both stacks are balanced after every subtree, and the calls in it are recorded as structural recursion says |
| EnclosingStmts.CallEnclosingStmts | tool/internal/ast/shared.go:559-565 | The whole map equals the structural definition |
| EnclosingStmts.RecordsNearest | tool/internal/ast/shared.go:559-597 | A call is recorded exactly when a statement is around it, and then with the last one on the path to it |
| Identity.KeyIsInjective | tool/internal/rule/func_rule.go:117-139 | Rules with the same key agree in every field, absent and empty signatures told apart |
| Identity.EncPrefix | tool/internal/rule/func_rule.go:117-123 | A length-prefixed string ends where its prefix says, whatever it contains |
| DirectiveArgs.Tokenize | tool/internal/ast/directive.go:282-320 | The loop over quote and escape state splits as the recursive scanner does |
| DirectiveArgs.CutUnquoted | tool/internal/ast/directive.go:328-345 | Cuts at the first separator outside quotes, whatever the separator |
| DirectiveArgs.ScanArgs | tool/internal/ast/directive.go:129-163 | The loop yields the arguments, or the error, of the recursive definition |
| DirectiveArgs.PrintScan | tool/internal/ast/directive.go:129-163 | Writing arguments, each value between quotes or, where it can be, bare, and scanning the text gives the same arguments, whatever the values |
| DirectiveArgs.BareArg | tool/internal/ast/directive.go:129-163 | A token without double quotes is an argument exactly when it has a colon, not in front, and no single quote behind the first; it is cut there |
| DirectiveArgs.QuotedKeyFails | tool/internal/ast/directive.go:129-163 | A double quote in front of the first colon is an error, whatever follows |
| DirectiveArgs.BlankSeparates | tool/internal/ast/directive.go:282-320 | Any blank separates tokens, any number of them, and none does inside quotes |
| Decimal.RoundTrip | tool/internal/rule/func_rule.go:118 | Reading a printed numeral gives the number back |

## Left out

- HookLang.CanFlattenIsSound: runs are bounded by a number of nested calls and loop rounds, for every
  such number; a run that needs more counts as one that did not return. Goroutines and `defer` inside a
  hook are not part of the hook language.
- BracketRuns.BracketingIsScoping: nested calls and loop rounds are bounded in the same way, for every
  bound; `goto` and statements that label a marked one are not modelled, and a switch is a choice of the
  bodies of its clauses, so that no clause is marked (for those see `Bracket.ClausesStayTogether`).
- TJumpChain.ChainIsAdvice: contexts carry names of arguments, a skip flag and one datum; reading and
  writing values through a context belongs to the arbitrary hooks. The Before trampoline of a rule
  without a hook takes the arguments it is called with.
- Optimize.NewHookContextImpl: function and package name of the literal context.
- Instrument.InsertTJump: comments, line directives and the signatures and bodies of trampolines, which
  the semantics represents by their contract.
- Instrument.ApplyFuncRules: the imports of a rule and the directive that exempts a function.
- Naming.NameSignature: types of fields; names declared inside the body.
- Bracket.File.ApplyIgnoredCallSites: the statements that are marked come in as a set; matching the
  directive comment is not modelled, nor the import of the runtime package.
- Templates.CompileMeans: expressions are values, not nodes renamed and replaced in place, so that
  aliasing between nodes is not captured; neither are markers inside string literals. A template's text
  is taken as parsed.
- ImportDecls.InjectExpression: the local names of the function come in as a set; rules that add
  declarations rather than expressions. The name of a package is a function of its path.
- ImportDecls.AddRuleImports: the update of the import configuration and its failure.
- ImportDecls.File.AddToFile: where the declaration of the added imports goes.
- StateManager.RunBuild: a build over a leftover manifest; it starts without one, as a real build does.
- StateManager.Manager.Modify: changes go to paths whose entry was written; the build stops otherwise.
- StateManager.Manager.Commit: JSON, the order of entries, and directories.
- StateManager.Manager.Track: making paths absolute, and paths whose status cannot be read, which count
  as missing. The name of a snapshot is injective; SHA-256 is not part of this model.
- Storage.Disk.CopyFile: symbolic links and directories; copying is block by block.
- Storage.Disk.WriteFileAtomic: replacing a file by renaming is one step.
- BuildLockCalls.System.TryAcquire: an attempt that fails for good looks like one that has to be repeated.
- BuildLockCalls.System.AcquireBuildLock: an error ends polling at once, and a missing directory makes the
  lock a no-op; both are a caller that gives up here.
- BuildLock.AtMostOneHolder: the parent directory exists and nobody outside the protocol touches the
  file; error values are one kind of failure.
- ArgEdits.FileBuildArgsKeepKinds: errors of the separation of targets into packages and files, and
  builds for which the runtime file does not exist, which leave the file out. Paths are those of Unix.
- `extractBuildFlags` and the context flags of `go list`: selections by table.
- AmqpLedger.Ledger.Deliver: each operation is one step here; `AmqpInterleaving` has the steps inside, and
  deliveries that arrive after their channel has shut down, which are not entered here. Automatically
  acknowledged deliveries, whose span ends at once, are not entered either.
- AmqpInterleaving.EndsExactlyTheSettled: a delivery without channel and consumer, whose span its own
  settlement ends; error status of spans.
- Injection.RunInjectionPasses: loads that fail; which rules match a package is a table.
- ToolFileWalk.WalkInstrumentation: an import leads to the same tool file wherever it is imported from.
- Identity.KeyIsInjective: about the text before CRC-32, which is not injective; lengths are counted in
  characters.
- DirectiveArgs.PrintScan: the escapes of strconv.Unquote other than the single-character ones below
  are errors here (`\\`, `\"`, `\n`, `\t`, `\r`); matching the directive's own name.
- EnclosingStmts.RecordsNearest: go and defer statements are told apart in `BracketRuns`.
- The chain that protects nested resolutions against cycles, caches, logging, extraction of the bundle,
  running the go command, and the other telemetry hooks.
