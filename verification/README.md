# Verification model of the agent's state machines

This project models the parts of the coding agent whose correctness is hard to see from one function,
and proves what they are for. It is written in Dafny 4.11; `dafny verify dfyconfig.toml` checks it.

| component | source | files |
|---|---|---|
| tool call scheduler | `src/framework/tool-call-orchestrator.ts` | `ToolScheduler`, `ToolExecution`, `ToolPreparation`, `ToolResults` |
| file checkpoints | `src/core/checkpoint.ts` | `Checkpoint` |
| external assertions | `src/framework/external-assertion.ts` | `ShellWords`, `CommandLine`, `Doubles`, `ExternalAssertion`, `AssertionBinding` |
| bounded resume window | `src/commands/session-command-handlers.ts` | `Utf16`, `ResumeWindow` |
| terminal emulator of the TUI smoke script | `scripts/smoke/tui-ui-pty-smoke.py` | `Terminal` |
| agent mode lifecycle | `src/framework/agent-mode.ts`, `src/framework/store.ts` | `AgentMode` |
| cost tracker | `src/core/cost-tracker.ts` | `CostTracker` |
| evidence bundle verifier | `scripts/e2e/assemble-web-e2e-receipt.ts` | `EvidenceBundle` |
| command registry, parser, completer | `src/commands/registry.ts`, `parser.ts`, `index.ts` | `CommandRegistry` |

`Json`, `Text` and `Sequences` hold what several modules share. JSON text is a codec of which three things are assumed
(`Json.IsFaithful`): it refuses the empty text, it carries values without numbers and every value that some
text parses to, and what cannot be carried changes on the way (an infinity and NaN arrive as null, -0 as
0). `SampleCodec` exhibits such a codec, so the assumption is not empty. Code that changes state step by step is a class or a
method with loops; each method is proved against a specification function, and the properties below are
proved of those functions.

The scheduler appears twice. `ToolScheduler` is a step machine in which every call is a program of atomic
steps on a shared world, and any interleaving inside a group is a run. `ToolExecution` is the loop as it
is written, with an arbitrary scheduler inside a group. Both are proved to give what running the calls
one at a time gives. What the callers promise is stated as preconditions: executor promises settle, calls
declared concurrency-safe do not change the world, calls are numbered by position (the last is proved of
`PrepareToolCalls`).

## Where the code falls short of what one would expect

Each of these has a lemma with a concrete input or an exact condition.

- Truncating a resume entry drops an unpaired high surrogate at the end of the kept prefix although it
  fits: the kept prefix is the longest whole-code-point prefix if and only if the longest fit does not end
  in such a surrogate (`KeptIsLongestWholeFit`, `LoneHighIsDropped`).
- A checkpoint round trip holds if and only if snapshot names do not clash. `safeFileName` is not
  injective, and a project file stored as `.checkpoint.json` shares the metadata's path
  (`CreateThenRestore`, `UnsafeNamesClash`, `MetadataNameClashes`).
- A create that fails part way hides a complete legacy checkpoint of the same turn, because the new
  directory is looked up first (`CreateCheckpoint`).
- Deferred and immediate mode cycling, at least once, reach the same mode (`DeferralReachesSameMode`), but
  not always the same plan and return mode (`DeferralAgreesUnlessLossy`).
- Rewriting a tool call's arguments turns a number beyond the double range into null and -0 into 0:
  `{"x":1e999}` parses to an infinity, is written back as `{"x":null}`, and a record listed twice is then
  prepared differently the second time. That happens if and only if the arguments hold such a number
  (`NormalizingIsStable`, `InfinityIsNotStable`, `MinusZeroIsNotStable`, `PrepareToolCalls`).
- The assertion validator converts words with `String(...)`, so the array `["OPEN"]` passes for the word
  `OPEN` (`ArrayPassesForWord`), and a value with its own `toString` makes it throw, at a concrete record
  and in general exactly when everything before that field passes (`OwnToStringThrows`, `ThrowsExactly`).
  A surviving passed assertion is typed all the same (`PassedSurvivorsAreWellFormed`).
- Pull-request numbers are compared as doubles, so 9007199254740993 and 9007199254740992 are one number
  (`NumbersCollide`; `SharedExactly` says which others are); within the validator's limits that cannot
  confuse two pull requests (`ViewedIsRequested`).
- An observed value that is only white space is recorded as a blank text (`Make`).
- Lexing undoes quoting only for non-empty words, and only when the first is not taken as a prefix
  (`LexUndoesQuoting`).
- A scoped package joined to a version that contains `@` is refused, and blanks at the end of a version are
  dropped (`PackageSpecRoundTrip`).
- Erasing in the line up to the cursor (`ESC [ 1 K`) blanks only the cursor's own cell; ECMA-48's erase in
  line (EL) blanks everything before it too (`LineErases`).
- Addressing the cursor does not clear a pending wrap, so the next character may land on the following
  line (`PrintAtAddress`).
- Feeding input in two pieces gives the same as feeding it whole, whatever follows, if and only if the
  first piece does not end inside an escape sequence: otherwise, from every screen state, some
  continuation is read differently (`CutsThatDoNotMatter`, `CutInsideEscapeMatters`).
- The evidence digest depends on the listing order if and only if the bundle is accepted and two different
  files of different directories compare as equal (`ListingOrderDoesNotMatter`,
  `TiedFilesKeepListingOrder`).

## Model

| member | source | states |
|---|---|---|
| ToolScheduler.InterleavingIsSequential | src/framework/tool-call-orchestrator.ts:156-193 | whatever interleaving the groups take, the yielded results are a prefix of those of one-at-a-time execution in provider order; a finished run yields exactly one result per call, rejected and refused calls included, and leaves the sequential world |
| ToolScheduler.BarriersHold | src/framework/tool-call-orchestrator.ts:172-188 | of two calls not both concurrency-safe, the later starts only after the earlier settled |
| ToolScheduler.InFlightIsBounded | src/framework/tool-call-orchestrator.ts:161-188 | at most max(1, limit) calls are in flight, and a call with an argument error or blocked drift never is |
| ToolScheduler.NextInv | src/framework/tool-call-orchestrator.ts:160-193 | every step of every interleaving keeps the invariant that ties group, statuses, world and yielded results to sequential execution |
| ToolScheduler.EveryStepDescends | src/framework/tool-call-orchestrator.ts:156-193 | every step descends a well-founded order, so no run is infinite |
| ToolScheduler.SomeStepIsPossible | src/framework/tool-call-orchestrator.ts:156-193 | no reachable unfinished state is stuck |
| ToolScheduler.DrainingCompletes | src/framework/tool-call-orchestrator.ts:156-193 | from every reachable state some run finishes |
| ToolScheduler.SortIsIdentity | src/framework/tool-call-orchestrator.ts:165-169 | the sort by index leaves a group's results alone if and only if their indices already ascend |
| ToolScheduler.GroupIsSequential | src/framework/tool-call-orchestrator.ts:163-170 | a settled group, sorted, extends the yielded results by exactly the sequential results of its calls |
| ToolExecution.ExecuteToolCalls | src/framework/tool-call-orchestrator.ts:156-193 | the loop itself: yielded results and final world equal those of sequential execution, for every limit and every scheduling inside groups |
| ToolExecution.RunGroup | src/framework/tool-call-orchestrator.ts:163-170 | an awaited group of read-only calls gives each call the result it has alone, in order, and keeps the world |
| ToolExecution.RunOne | src/framework/tool-call-orchestrator.ts:185-187 | an awaited barrier has its lone effect and is reported in its own place, a rejection as the failure that `FailuresAreReported` reads |
| ToolPreparation.PrepareToolCalls | src/framework/tool-call-orchestrator.ts:107-153 | every record ends up with its normalised arguments; a call is prepared as if from its own original arguments if and only if it is the first of its record or the arguments hold no number that JSON text cannot carry |
| ToolPreparation.NormalizingIsStable | src/framework/tool-call-orchestrator.ts:124-125 | preparing the rewritten arguments gives the same call if and only if they hold neither a number beyond the double range nor -0; rewriting twice is rewriting once |
| ToolPreparation.InfinityIsNotStable | src/framework/tool-call-orchestrator.ts:124-125 | the argument 1e999: an infinity the first time, null the second |
| ToolPreparation.MinusZeroIsNotStable | src/framework/tool-call-orchestrator.ts:124-125 | the argument -0: itself the first time, 0 the second |
| Json.ArrivesUnchanged | src/framework/tool-call-orchestrator.ts:124-125 | a value survives stringify and parse unchanged if and only if no number in it is an infinity, NaN or -0 |
| ToolPreparation.PreparedCallsAreOrderly | src/framework/tool-call-orchestrator.ts:107-152 | prepared calls are numbered by position, and a call that must not reach the executor is never grouped |
| ToolResults.FailuresAreReported | src/framework/tool-call-orchestrator.ts:209-332 | in every run, a call with bad arguments, a blocked call without wording of its own and a rejected call are each yielded in their place as a structured failure with exactly the message |
| ToolResults.PassedSurvivorsAreWellFormed | src/framework/tool-call-orchestrator.ts:248-317 | for any result text, a surviving passed assertion is a well-formed typed assertion less than five minutes old, in a structured successful envelope, for a recognised command other than `gh pr merge` and `gh release create` |
| ToolResults.SurvivorsAreWellFormed | src/framework/tool-call-orchestrator.ts:254-297 | every other survivor is well formed if and only if its word-valued field is a string, and only a pull-request state can fail that |
| ToolResults.DerivedAssertionSurvives | src/framework/tool-call-orchestrator.ts:248-298 | end to end through stringify, parse, validate and match: a passed derived assertion survives for its own call within five minutes if and only if captures are within limits and identities agree |
| Checkpoint.CreateThenRestore | src/core/checkpoint.ts:128-168 | whatever happened to the project in between, carrying out all restore plans puts every recorded path back and changes no other path, if and only if snapshot names do not clash |
| Checkpoint.RestoreAfterCreate | src/core/checkpoint.ts:97-310 | composed from what a successful create and a restore promise: recorded paths are back as at creation and nothing else changed, if and only if snapshot names do not clash |
| Checkpoint.RestoreIsExact | src/core/checkpoint.ts:256-269 | the same against the turn directory: exact if and only if the directory still holds each recorded file's own content |
| Checkpoint.FaithfulWithoutClash | src/core/checkpoint.ts:380-383 | a finished turn directory holds each recorded file's own content if and only if names do not clash |
| Checkpoint.UnsafeNamesClash | src/core/checkpoint.ts:380-383 | a concrete pair of files that the storage cannot tell apart |
| Checkpoint.MetadataNameClashes | src/core/checkpoint.ts:142-166 | a project file named `.checkpoint.json`: names clash unless its content is the metadata itself |
| Checkpoint.SourceNameIsInside | src/core/checkpoint.ts:88-93 | the snapshot path of a resolved target is never refused |
| Checkpoint.Workspace.CreateCheckpoint | src/core/checkpoint.ts:97-169 | cut short anywhere or failing at any write, it never alters an earlier checkpoint; on success the directory is exactly the snapshots plus metadata; otherwise it holds no metadata, unless a target is stored under the name of the metadata, and a legacy checkpoint of the turn is then hidden by a directory without metadata |
| Checkpoint.Workspace.TakeSnapshots | src/core/checkpoint.ts:128-158 | the recorded entries are truthful, a subsequence of the targets, and the directory holds exactly their snapshots |
| Checkpoint.Workspace.RestoreCheckpoint | src/core/checkpoint.ts:175-310 | without error all plans are carried out; an error before the first write leaves the project alone; after a failed write the applied prefix is undone and reported; whatever the turn directory holds, also after a create that was cut short with any targets, the project is left alone or every snapshot that the metadata names is found |
| Checkpoint.Workspace.PreparePlans | src/core/checkpoint.ts:210-254 | plans are made without writing; success means every entry has a target, a readable previous state and its snapshot |
| Checkpoint.Workspace.ApplyPlans | src/core/checkpoint.ts:256-309 | on a failure the restored paths are the plans before the failing one, rolled-back and rollback-failed paths are a merge of them in reverse order, and with no rollback failure every file is as before |
| Checkpoint.Workspace.RollBack | src/core/checkpoint.ts:275-294 | exactly the paths reported as rolled back are as before the restore |
| Checkpoint.UndoneIsBefore | src/core/checkpoint.ts:277-294 | untried paths are unchanged, and undoing every touched path restores the whole project |
| ShellWords.SimpleShellWords | src/framework/external-assertion.ts:159-209 | the character loop computes the lexer specification |
| ShellWords.LexIsGrammar | src/framework/external-assertion.ts:159-194 | the lexer accepts exactly the command lines that a grammar of plain, escaped, quoted and gap pieces spells, and returns their words; so it refuses exactly unclosed quotes, dangling escapes, unquoted control characters and `$(` |
| ShellWords.LexUndoesQuoting | src/framework/external-assertion.ts:159-209 | lexing single-quoted words gives the words back if and only if none is empty and the first is not an assignment, `env` or `command` |
| ShellWords.ReadPieces | src/framework/external-assertion.ts:166-194 | from any unquoted lexer state, reading what grammatical pieces spell ends unquoted with their words appended |
| ShellWords.StripPrefix | src/framework/external-assertion.ts:196-208 | skips assignments, `env` with its assignments, and `command` |
| CommandLine.PackageSpecRoundTrip | src/framework/external-assertion.ts:269-278 | a package name joined to any version is split back into the two if and only if the name does not start with a hyphen, the version does not end in a blank, and it is not a scoped name with `@` in the version |
| CommandLine.PositionalsAreGrammar | src/framework/external-assertion.ts:280-304 | the arguments are accepted if and only if they are known flags, value flags each with a value, and positionals in any order; the positionals come back in order |
| CommandLine.NpmViewInvocation | src/framework/external-assertion.ts:283-313 | the flag loop finds the positionals specified for `npm view`, or refuses |
| ExternalAssertion.ValidatorIsExact | src/framework/external-assertion.ts:63-157 | the validator accepts a record and its word fields are strings if and only if it is the record of a well-formed assertion |
| ExternalAssertion.ThrowsExactly | src/framework/external-assertion.ts:63-157 | the validator throws if and only if everything before the word-valued field passes and that field, or an element of it when it is an array, is an object with an own `toString` |
| ExternalAssertion.OwnToStringThrows | src/framework/external-assertion.ts:72-72 | a concrete record on which the validator throws |
| ExternalAssertion.ReadUndoesWrite | src/framework/external-assertion.ts:38-47 | reading the record of an assertion gives the assertion back, for every assertion |
| ExternalAssertion.ArrivesAsWritten | src/framework/external-assertion.ts:38-47 | after stringify and parse it reads as itself if and only if its pull-request number is finite and not -0 |
| ExternalAssertion.ArrayPassesForWord | src/framework/external-assertion.ts:80-88 | a concrete accepted record that is no typed assertion |
| AssertionBinding.DerivedIsWellFormed | src/framework/external-assertion.ts:383-581 | a derived assertion is well formed if and only if its captured fields are within the length and number limits |
| AssertionBinding.PassedIsBound | src/framework/external-assertion.ts:607-742 | a passed derived assertion is accepted for its own invocation within five minutes if and only if the identity in the output is present and agrees with the command line |
| AssertionBinding.ClassifiedNamesPackage | src/framework/external-assertion.ts:283-313 | an `npm view` command line that is recognised names a package and a field that is not `publish` |
| AssertionBinding.BoundedIsGood | src/framework/external-assertion.ts:218-221 | a bounded text is never too long, and blank if and only if the value is blank and so is the fallback, cut to the limit |
| AssertionBinding.Make | src/framework/external-assertion.ts:357-381 | a target is never blank; an observed value is blank if and only if a non-empty value consists of white space; neither is too long |
| AssertionBinding.ViewedIsRequested | src/framework/external-assertion.ts:699-712 | when identities agree and captures are within limits, the pull request shown has exactly the number that was asked for, though numbers are compared rounded |
| Doubles.SafeNumbersAreExact | src/framework/external-assertion.ts:525-525 | different digits are never one safe integer |
| Doubles.SharedExactly | src/framework/external-assertion.ts:707-707 | digits share their number with other digits if and only if they are at least 2^53, except below 2^54 those with remainder 2 modulo 4 |
| Doubles.NumbersCollide | src/framework/external-assertion.ts:707-707 | two concrete digit strings that are one number |
| Doubles.RoundsToNearest | src/framework/external-assertion.ts:525-525 | no multiple of the rounding unit is nearer to the digits than the number they become |
| Doubles.Mantissa | src/framework/external-assertion.ts:525-525 | the unit leaves at most 53 bits, and exactly 53 when anything is cut |
| Utf16.ByteLengthIsEncodedLength | src/commands/session-command-handlers.ts:106-113 | the counted bytes are the length of the UTF-8 encoding, lone surrogates as U+FFFD |
| Utf16.PrefixCostGrows | src/commands/session-command-handlers.ts:111-115 | longer prefixes cost strictly more, which the binary search relies on |
| ResumeWindow.TruncateUtf8ForResume | src/commands/session-command-handlers.ts:102-119 | the binary search finds the longest prefix within the budget, for every limit, and the result is the specified truncation |
| ResumeWindow.KeptIsLongestWholeFit | src/commands/session-command-handlers.ts:109-118 | the kept prefix is whole code points within the budget, and the longest such if and only if the longest fit does not end in an unpaired high surrogate |
| ResumeWindow.LoneHighIsDropped | src/commands/session-command-handlers.ts:116-117 | a concrete text whose longest whole prefix is not kept |
| ResumeWindow.TruncatedFits | src/commands/session-command-handlers.ts:106-118 | a text is truncated exactly when it exceeds the limit, and the truncated text fits if and only if the limit covers the notice |
| ResumeWindow.CreateResumeTranscriptWindow | src/commands/session-command-handlers.ts:64-100 | the window is the newest messages in order, at most 50 and at least four (or all), content plus 128 bytes each at most 262144, full when it stops early, and `truncated` is false exactly when everything is shown whole |
| ResumeWindow.WindowBounds | src/commands/session-command-handlers.ts:72-79 | the stopping rule alone gives the ceiling, the message bounds and that little room is left |
| ResumeWindow.TruncatedFlagIsExact | src/commands/session-command-handlers.ts:85-98 | the flag is false if and only if every message appears whole |
| Terminal.TerminalModel.Feed | scripts/smoke/tui-ui-pty-smoke.py:46-63 | the parsing loop computes the specified screen machine and terminates |
| Terminal.Fed | scripts/smoke/tui-ui-pty-smoke.py:46-63 | for every text the grid keeps its shape, the cursor stays inside, and old scrollback is a prefix of the new |
| Terminal.TokenLength | scripts/smoke/tui-ui-pty-smoke.py:97-115 | every parser step takes at least one character and no more than there are |
| Terminal.LineFeedKeepsText | scripts/smoke/tui-ui-pty-smoke.py:156-162 | scrollback plus screen stay the same lines, plus one blank at the bottom row |
| Terminal.FeedingInPieces | scripts/smoke/tui-ui-pty-smoke.py:46-63 | feeding whole equals feeding in two pieces for every cut between two parser steps |
| Terminal.CutIsBetweenTokens | scripts/smoke/tui-ui-pty-smoke.py:97-115 | a cut is between two steps if and only if the first piece ends inside no escape sequence |
| Terminal.CutsThatDoNotMatter | scripts/smoke/tui-ui-pty-smoke.py:46-115 | from every screen state and for every character width, feeding a text and then any other equals feeding them joined if and only if the first ends inside no escape sequence |
| Terminal.CutInsideEscapeMatters | scripts/smoke/tui-ui-pty-smoke.py:97-104 | a concrete cut inside an escape sequence after which a letter is printed |
| Terminal.PlainTextIsPreserved | scripts/smoke/tui-ui-pty-smoke.py:164-180 | on every screen size, scrollback and screen read line after line spell the plain text fed, then only blanks |
| Terminal.PrintAtAddress | scripts/smoke/tui-ui-pty-smoke.py:126-132 | addressing a cell and printing writes that cell and no other if and only if no wrap is pending |
| Terminal.LineErases | scripts/smoke/tui-ui-pty-smoke.py:133-138 | erasing in line blanks to the end or the whole line; erasing up to the cursor blanks the cells before it if and only if they are blank already |
| Terminal.MovesCancel | scripts/smoke/tui-ui-pty-smoke.py:115-125 | moving up or right by n and back returns to the starting cell if and only if no edge was met on the way out or the start is at the edge the way back ends at |
| Terminal.ResizeKeepsLines | scripts/smoke/tui-ui-pty-smoke.py:74-95 | a resize keeps all lines in order, up to padding and cutting to the new width, adding blanks only above a taller screen |
| Terminal.ShrinkKeepsText | scripts/smoke/tui-ui-pty-smoke.py:79-83 | fewer rows at the same width change no line of scrollback plus screen |
| Terminal.ResizeKeepsCursorLine | scripts/smoke/tui-ui-pty-smoke.py:79-94 | the cursor stays on its line unless that line scrolls out |
| Terminal.TerminalModel.Resize | scripts/smoke/tui-ui-pty-smoke.py:74-95 | the method computes the specified resize |
| AgentMode.EveryRunIsCoherent | src/framework/agent-mode.ts:48-128 | over every run the plan flag holds exactly in PLAN, a pending mode is never the current one, the return mode is the last mode other than PLAN, and revision and last plan are those of the completions |
| AgentMode.CompletedSinceIsExact | src/framework/agent-mode.ts:83-89 | a revision taken earlier reports a plan exactly when one was completed since, and then the newest |
| AgentMode.DeferralReachesSameMode | src/framework/agent-mode.ts:48-57 | from any state, whatever is staged, k deferred cycles and apply reach the mode of k immediate cycles if and only if k is positive or nothing is staged |
| AgentMode.DeferralAgreesUnlessLossy | src/framework/agent-mode.ts:92-128 | from any coherent state, whatever is staged, they agree on plan and return mode too if and only if the modes passed through had nothing to lose, by a condition on the mode, the staged mode, the plan, the return mode and k |
| AgentMode.AgentModeLifecycleController.Cycle | src/framework/agent-mode.ts:48-57 | the method is the specified transition on controller and store |
| AgentMode.AgentModeLifecycleController.CompletePlan | src/framework/agent-mode.ts:67-81 | the method is the specified transition; a staged mode other than PLAN wins over the return mode |
| CostTracker.EveryRunIsIndexed | src/core/cost-tracker.ts:164-238 | over every run of record, clear and setBudget the index holds exactly the records with an id, each once |
| CostTracker.EstimateAddsUp | src/core/cost-tracker.ts:201-207 | splitting a usage in two does not change its estimated cost |
| CostTracker.EstimateIsPerMillion | src/core/cost-tracker.ts:201-207 | a million tokens of each kind cost the price of that kind, cached ones the input price unless they have their own |
| CostTracker.StatsAreTallies | src/core/cost-tracker.ts:248-316 | in any time range, tokens, cost and count by source, model, agent and task are what the records with that key add up to |
| CostTracker.TotalsAgree | src/core/cost-tracker.ts:276-312 | total cost equals provider plus estimated, the sum over sources and the sum over models |
| CostTracker.TalliesAddUp | src/core/cost-tracker.ts:251-255 | what adjoining time ranges count adds up to the joined range, for every key |
| CostTracker.ExceededStaysExceeded | src/core/cost-tracker.ts:328-337 | with prices that are not negative, an exceeded budget stays exceeded whatever is recorded and however time passes |
| CostTracker.CostTracker.Record | src/core/cost-tracker.ts:164-238 | a usage is recorded once per request id, the returned record stands for it, and the index stays exact |
| CostTracker.CostTracker.GetStats | src/core/cost-tracker.ts:248-316 | the accumulating loop says about every key exactly the reference tally |
| CostTracker.CostTracker.CheckBudget | src/core/cost-tracker.ts:328-337 | verdict, used and remaining are those of the session's records, and no budget is always within budget |
| EvidenceBundle.CountingIsMatching | scripts/e2e/assemble-web-e2e-receipt.ts:238-270 | the counting tests hold if and only if raw directories and manifest scenarios match one to one without duplicates on either side |
| EvidenceBundle.VerifyEvidenceBundle | scripts/e2e/assemble-web-e2e-receipt.ts:231-275 | the loop succeeds if and only if the match is one to one and all evidence passes, with all files sorted |
| EvidenceBundle.ListingOrderDoesNotMatter | scripts/e2e/assemble-web-e2e-receipt.ts:241-273 | verdict and files are the same for every listing order if and only if the bundle is refused or no two different files of different directories compare as equal, given that different directories have different paths, which the paths' directory names ensure |
| EvidenceBundle.OrderIsIrrelevantExactly | scripts/e2e/assemble-web-e2e-receipt.ts:241-273 | the same without that proviso: if and only if the bundle is refused or the files that compare as equal can be exchanged between any two directories |
| EvidenceBundle.SortIsStable | scripts/e2e/assemble-web-e2e-receipt.ts:273-273 | the sort keeps files that compare as equal in their order |
| EvidenceBundle.SortedIsUnique | scripts/e2e/assemble-web-e2e-receipt.ts:273-273 | order and the sequence of each class of ties determine a sorted list |
| EvidenceBundle.TiedFilesKeepListingOrder | scripts/e2e/assemble-web-e2e-receipt.ts:241-273 | two directories with any files of their own, one of each comparing as equal: both listings of them are accepted, with different results |
| CommandRegistry.OneOwner | src/commands/registry.ts:463-479 | whatever the letter case, no two registered commands answer to one name |
| CommandRegistry.FindIsOwner | src/commands/index.ts:51-58 | a lookup finds the owner of a name, and nothing only when nobody owns it |
| CommandRegistry.ReorderedIsRegistered | src/commands/registry.ts:466-479 | a registered table stays one in any other order |
| CommandRegistry.FindIgnoresOrder | src/commands/index.ts:51-58 | lookups in a registered table do not depend on its order |
| CommandRegistry.CompletionsParseBack | src/commands/parser.ts:86-101 | every line completion parses to a registered command by its own name, a subcommand completion to the command the typed line already named |
| CommandRegistry.CompleterParsesBack | src/commands/parser.ts:106-121 | so does every offer of the line editor's completer |
| CommandRegistry.NameParses | src/commands/parser.ts:42-70 | a registered name, alone or followed by a blank and anything, parses to its command |
| CommandRegistry.Registry.RegisterBuiltinCommands | src/commands/registry.ts:439-484 | registration succeeds if and only if the definitions are acceptable; a failed one leaves the reserved names, and after a successful one the reserved names are exactly the names a lookup finds |

## Left out

- ToolExecution.ExecuteToolCalls: a consumer that stops the generator early, or changes the world between two yields, is not modelled; neither is an executor whose promise never settles, nor a `maxParallelToolCalls` that is not an integer.
- Result metadata: `outputBytes`, `artifactRef`, `permissionDecision`, durations, the text of drift results, and the strategy tracker behind `addToolToTracker`.
- ToolPreparation.PrepareToolCalls: the optional callbacks are functions of their arguments; a callback that keeps state or throws is not modelled.
- JSON text: parsing and stringifying are a codec of which only `Json.IsFaithful` is assumed; regular-expression captures over command output arrive as a record of captured fields, the converted number of `gh pr create` among them.
- Text: outside `ResumeWindow` strings are sequences of characters, case folding is ASCII only, and `\s` is the fixed set that JavaScript defines.
- Checkpoint.Workspace.RestoreCheckpoint: contents only; file modes, previews, parent-directory creation, symbolic links and a resolution of paths that changes over time are not modelled, nor are metadata files whose entries are malformed or whose root is `null`.
- Checkpoint.Workspace.CreateCheckpoint: `listCheckpoints`, `cleanupCheckpoints` and an undefined project path are left out, being plain listing and deletion; two creates racing for one turn are decided by the atomic directory creation.
- Terminal.TerminalModel.Feed: byte decoding, and character widths beyond a function parameter; parameters with digits outside ASCII, which the script would fail on.
- AgentMode.AgentModeLifecycleController.Cycle: listeners, the fallback for a store without its methods, and `Store.setAgentMode`, which bypasses the controller; of the store only the fields that the controller writes are modelled.
- AssertionBinding.Make: an observation time of -0 counts as 0.
- CostTracker.CostTracker.Record: costs are exact reals, not floating point; reasoning tokens, effort fields, `requestKind` and the durable sink are not modelled, and neither are model, agent or task names that collide with names every JavaScript object inherits.
- EvidenceBundle.VerifyEvidenceBundle: reading a directory, the checks for sensitive data and version facts and the screenshot rules arrive as one outcome per directory; digests are an injective function.
- CommandRegistry.CompletionsParseBack: which commands are visible is a parameter, assumed to be names of registered commands; `opaqueTail` is not modelled.
- CommandRegistry.Registry.RegisterBuiltinCommands: the metadata table is a parameter whose ids are not empty, as those of the built-in table are.
- Rendering, pickers, session persistence, model and settings handlers, mock servers and child processes: user interface and plumbing.
