# Verification model of a disposable-workspace coding assistant

This project models, in Dafny, the parts of the `ulg` program that carry its promises, and
proves those promises for every input, every run and every crash point.

**The unified-diff engine.** `Text`, `Paths`, `Patches` and `DiffParser` model texts, paths,
`FilePatch.apply` and `parse_unified_diff`, each loop as a method proved equal to a function;
`SpliceLaws` and `ParserLaws` say what those functions mean, and `PatchLaws` says it of whole
file patches, creation, deletion and undoing included. `DiffPrinter` models what
`difflib.unified_diff` and `build_diff` print for *any* valid alignment of the lines,
`DiffRoundTrip` and `RoundTripExact` prove that printing and parsing are inverse exactly under
a stated condition, `DiffCorrect` ties the printed patch to the two texts, and `TreeDiff` and
`TreeRoundTrip` do the same for whole trees, whose paths are sorted by `StringOrder`;
`Witnesses` holds concrete inputs that fail.

**The durable task protocol.** `TaskState` (state file, phase table, effect journal),
`Generations` (publishing and recovering a workspace generation, one atomic change of the disk
at a time), `Grants` (approval grants that are persisted before they are counted) and their laws
(`PatchedGenerations`: what is published is the patched tree) are joined in `Protocol`: one step machine over the files of a task, a live process and a crash
between any two steps. `ProtocolInv` and `ProtocolSteps` prove an invariant of every step,
`ProtocolHistory` says how the state file may change, `ProtocolTheorems` states what holds
over every run, and `ProtocolResume` when a task can be resumed. `GenerationWitnesses` and
`ProtocolWitnesses` are runs that end badly, open to every new task. `Lease` is the lock file with inodes and any number of processes.

**The controller loop.** `ControllerTrace` and `Controller` model the model/policy/approval/tool
loop against a script of answers, with the real grant store, and account for every event.

**Bounded walks and copies.** `BoundedWalk`, `Directory`, `ListWalk` and `SearchWalk` prove that
the bounded listing and search take the longest part of the unbounded ones that the budgets
allow; `Snapshot`, `SnapshotLaws` and `Manifests`
say exactly which files a workspace copy holds and why its manifest is canonical; `Utf8` is the
byte-limit cut of section 4 of RFC 3629 text.

Where the program and its intent part, the code is followed, and a lemma gives the exact
condition or a concrete input:

- the diff round trip fails exactly for control characters in a path, and for an unterminated
  line starting with `-- ` or `++ ` (as deleted or inserted) that is followed by more output
  (`RoundTripExact.RoundTrip`; `Witnesses.ControlPathExample`, `Witnesses.SwallowedExample`,
  `Witnesses.SwallowedInsertExample`);
- undoing a file patch fails exactly when the pieces it wrote are not the lines of a text: one
  is empty, or one before the last lacks the newline (`PatchLaws.AppliedUndone`;
  `Witnesses.MergingExample` is such a patch that the parser returns);
- an exported diff cannot be applied exactly when a created file collides with a directory, or
  lies under an empty file, of the original (`TreeRoundTrip.WholeTree`;
  `Witnesses.ReplacedExample`, `Witnesses.EmptyFileExample`);
- a payload escapes as an `IndexError` exactly where an empty hunk is followed by a newline
  marker (`ParserLaws.PayloadEscapes`), and the final count check can never fire;
- a pending effect in `Cancel` or `Export`, or a published patch in `Retry`, can never be
  reconciled (`ProtocolHistory.HistoryLasts`, `TaskStateLaws.PublishedThenRetryIsStuck`), and
  every new task can come to either (`ProtocolWitnesses.PublishedThenCancel`,
  `ProtocolWitnesses.PublishedThenRetry`);
- scheduling an effect does not look at the room left in the journal, so with 1000 recorded
  effects a further one is opened that can be neither completed nor reconciled
  (`TaskStateLaws.EffectIsOpened`, `TaskStateLaws.OneMoreIsStuck`);
- recovery raises exactly when a manifest was left without a directory that matches it
  (`GenerationLaws.PublishAndRecover`), and publishing can be stopped in both such states
  (`GenerationWitnesses.PartialIsReachable`, `GenerationWitnesses.OrphanIsReachable`);
- one live session per task needs identifiers that are created once
  (`Lease.SecondCreateBreaks`);
- a cut that begins no valid text is read all the same exactly when what follows its longest
  valid prefix has at most four bytes and starts no character (`Utf8.Misread`).

Assumptions: digests are injective, so a digest stands for what it covers; grant and action
identifiers are fresh where they are issued; nobody else writes to the application's
directories; a crash is the crash of a process, so a write that was made stays made.

## Model

| member | source | states |
|---|---|---|
| Text.SplitThenJoin | src/ulg/workspace/patches.py:44 | splitting a text into lines that keep their line break gives canonical lines that join back to the text |
| Text.JoinThenSplit | src/ulg/workspace/patches.py:68 | canonical lines are the split of their own concatenation, so lines and texts correspond one to one |
| Text.NumeralValueOfNumeral | src/ulg/workspace/patches.py:104-107 | the number printed in a hunk header is the number read back, and consists of digits only |
| Paths.NormalisedIsCanonical | src/ulg/workspace/paths.py:15-21 | normalising an accepted path gives a canonical path and is idempotent |
| Paths.ComponentsOfJoin | src/ulg/workspace/paths.py:15-21 | slash-joining valid components loses nothing: the components come back |
| Patches.ApplyPatch | src/ulg/workspace/patches.py:39-73 | the cursor loop computes `Applied`, for every patch and every source, including each error |
| Patches.RunHunkBody | src/ulg/workspace/patches.py:58-66 | the inner loop computes `ApplyBody` |
| Patches.ApplyBodyIs | src/ulg/workspace/patches.py:58-66 | a hunk body succeeds exactly when the source holds its old side at the cursor; it then appends its new side and moves past the old one |
| SpliceLaws.ApplicableEverywhere | src/ulg/workspace/patches.py:48-56 | applicability read hunk by hunk: ordered, disjoint, in range, matching, and new position equal to old position plus the earlier count differences |
| SpliceLaws.ApplyIsSplice | src/ulg/workspace/patches.py:44-68 | the line machine succeeds if and only if the hunks are applicable, and then yields the untouched gaps interleaved with the new sides |
| SpliceLaws.UndoSplice | src/ulg/workspace/patches.py:44-68 | the swapped hunks are applicable to the output and splice it back to the source |
| SpliceLaws.ApplyIsInvertible | src/ulg/workspace/patches.py:44-68 | on lists of lines, whenever the machine succeeds, the hunks with plus and minus and the two ranges swapped give the source back |
| PatchLaws.AppliedExactly | src/ulg/workspace/patches.py:39-73 | a file patch succeeds if and only if its target is missing for a create and there for anything else, its hunks are applicable, and a delete leaves nothing; it yields the spliced text, or no file |
| PatchLaws.JoinCounts | src/ulg/workspace/patches.py:44-68 | joining pieces of at most one line each and splitting again never gives more pieces, and as many exactly when they already were the lines of a text |
| PatchLaws.AppliedUndone | src/ulg/workspace/patches.py:39-73 | the swapped patch, create and delete exchanged, takes a patched file back to what it was if and only if no piece of the result is empty and all but the last end in a newline |
| PatchLaws.ParsedIsLineLike | src/ulg/workspace/patches.py:108-148 | every line of every hunk of every payload that parses holds at most one line of text |
| PatchLaws.ParsedPatchUndone | src/ulg/workspace/patches.py:39-166 | so the condition for undoing is exact for every parsed patch and every file it succeeds on |
| DiffParser.ParseUnifiedDiff | src/ulg/workspace/patches.py:76-166 | the index-driven parser computes `Parsed` and terminates |
| DiffParser.ParseFileHunks | src/ulg/workspace/patches.py:98-158 | the loop over the hunks of one file computes `ReadHunks` and only moves forward |
| DiffParser.ParseHunk | src/ulg/workspace/patches.py:100-158 | one hunk, from its header to its count check, computes `ReadHunk` |
| DiffParser.ParseHunkBody | src/ulg/workspace/patches.py:108-139 | the counting loop with newline-marker back-patching computes `ReadBody` |
| DiffParser.ParseTrailingMarker | src/ulg/workspace/patches.py:140-148 | a marker after the last line back-patches it, and is an index error when there is no line |
| ParserLaws.HunkCounts | src/ulg/workspace/patches.py:111-149 | a parsed hunk has exactly its declared counts, the count check never fires, and the unguarded index fails if and only if a 0,0 hunk is followed by a marker |
| ParserLaws.ParserIsSound | src/ulg/workspace/patches.py:76-215 | every returned file has a canonical control-free path, distinct from the others, hunks with their declared counts, creates that consume nothing and deletes that produce nothing; the count check never fires |
| ParserLaws.PayloadEscapes | src/ulg/workspace/patches.py:76-166 | a whole payload escapes as an index error if and only if, read from its start, the parser comes to look for a hunk where a 0,0 hunk header and a newline marker stand |
| ParserLaws.FileIsSound | src/ulg/workspace/patches.py:84-165 | the same for one file, which also consumes at least one line and whose path was not seen before |
| ParserLaws.NormalizeIsClean | src/ulg/workspace/patches.py:176-203 | the normalised path is canonical and has no control character when the header paths have none |
| DiffPrinter.EmitLines | src/ulg/workspace/editor.py:154-162 | the loop that adds newline markers emits `EmitAll` of the raw lines |
| DiffRoundTrip.HeaderReads | src/ulg/workspace/patches.py:100-107 | a printed hunk header is read back as the same two ranges |
| DiffRoundTrip.BodyReads | src/ulg/workspace/editor.py:154-162 | a printed hunk body is read back line by line, markers included, whatever follows it, when no line is swallowed |
| DiffRoundTrip.FilesRead | src/ulg/workspace/editor.py:147-163 | a printed list of file patches is read back file by file |
| RoundTripExact.RoundTripIf | src/ulg/workspace/editor.py:147-163 | with clean paths and nothing swallowed, parsing the printed patches gives the patches |
| RoundTripExact.RoundTripOnlyIf | src/ulg/workspace/editor.py:155-157 | and otherwise it does not: counting lines, a swallowed line cannot be made up for |
| RoundTripExact.ParsedCost | src/ulg/workspace/patches.py:76-166 | whatever parses needs at least as many input lines as its patches cost to print |
| RoundTripExact.RoundTrip | src/ulg/workspace/editor.py:147-163 | parse after print is the identity if and only if paths are clean and no header-like unterminated line is followed by more output |
| DiffCorrect.DiffApplies | src/ulg/workspace/editor.py:147-153 | for every valid alignment and grouping, applying the file's patch to the old text gives exactly the new text, for create, update and delete |
| DiffCorrect.FileRoundTrip | src/ulg/workspace/editor.py:147-163 | the emitted lines of one file parse to that one patch, if and only if the path is clean and nothing is swallowed, and its application to the old text is exactly the new one |
| DiffCorrect.SwallowedLineBreaksRoundTrip | src/ulg/workspace/editor.py:155-157 | replacing an unterminated line that starts with `-- ` is a patch that does not come back |
| TreeDiff.Staging.ApplyFilePatch | src/ulg/workspace/editor.py:204-252 | changes the staging tree as `Patched` says and leaves it alone on every error |
| TreeDiff.Staging.ApplyAll | src/ulg/workspace/editor.py:75-76 | applies the patches in order, stopping at the first that fails |
| TreeDiff.UnpatchedUntouched | src/ulg/workspace/editor.py:204-252 | a patch changes no path but its own |
| TreeDiff.PatchesCommute | src/ulg/workspace/editor.py:75-76 | two patches for paths neither of which lies under the other commute: one order succeeds if and only if the other does, with the same tree |
| TreeDiff.AnyOrder | src/ulg/workspace/editor.py:75-76 | any two orders of patches to pairwise incomparable paths both fail or both succeed with the same tree |
| TreeDiff.BuildDiff | src/ulg/workspace/editor.py:111-163 | the loop over the sorted paths prints exactly the patches of the changed paths |
| TreeRoundTrip.WholeTree | src/ulg/workspace/editor.py:111-163 | applying the exported patches to generation 0 succeeds if and only if no created file collides, and gives at every path the current contents, up to empty files and executable bits |
| TreeRoundTrip.WholeTreeParses | src/ulg/workspace/editor.py:111-163 | the exported text parses to its patches if and only if paths are clean and nothing is swallowed |
| TreeRoundTrip.ExportedDiff | src/ulg/workspace/editor.py:57-163 | the exported text is empty and refused if nothing is printed; otherwise, under the exact condition, it parses, and applying what was parsed to generation 0 succeeds if and only if no created file collides and gives `Resulting` at every path |
| TreeRoundTrip.DirectoryReplacedByFileFails | src/ulg/workspace/editor.py:123-163 | a diff that replaces a directory by a file cannot be applied |
| TreeRoundTrip.EmptyFileReplacedByDirectoryFails | src/ulg/workspace/editor.py:123-163 | nor can one that replaces an empty file by a directory, because the deletion of an empty file is not shown |
| Witnesses.EmptyHunkEscapes | src/ulg/workspace/patches.py:140-143 | for every path, a patch with one 0,0 hunk and a newline marker after it escapes as an index error |
| Witnesses.SwallowedExample | src/ulg/workspace/editor.py:155-157 | replacing the text `-- x` by `y` prints a patch that does not parse back to itself |
| Witnesses.SwallowedInsertExample | src/ulg/workspace/editor.py:155-157 | neither does a list of two patches of which the first ends by inserting `++ x` |
| Witnesses.ControlPathBreaksRoundTrip | src/ulg/workspace/patches.py:170-174 | for every path with a control character a replacement of one line is printed and then refused |
| Witnesses.ControlPathExample | src/ulg/workspace/patches.py:170-174 | such a path is `a`, a tab and `b` |
| Witnesses.MergingIsNotUndone | src/ulg/workspace/patches.py:39-166 | for every path, an unterminated line inserted before another line is a patch that the parser returns, that applies, and that its swap does not undo |
| Witnesses.MergingExample | src/ulg/workspace/patches.py:39-166 | inserting `x` before the only line `a` is one |
| Witnesses.ReplacedExample | src/ulg/workspace/editor.py:123-163 | the diff of a task that deletes `a/b` and creates `a` cannot be applied to generation 0 |
| Witnesses.EmptyFileExample | src/ulg/workspace/editor.py:123-163 | neither can the diff of a task that replaces the empty file `a` by a directory holding `a/b` |
| TaskState.TaskStore.Save | src/ulg/tasks/state.py:193-202 | refuses a missing file or a wrong revision without a write; otherwise the file is the candidate unless the write did not land |
| TaskState.TaskSession.Update | src/ulg/tasks/state.py:396-404 | the session moves to the candidate only when the write succeeded |
| TaskState.TaskSession.Transition | src/ulg/tasks/state.py:406-410 | the same, refused outside the phase table |
| TaskState.DurableEffectJournal.BeforeExecute | src/ulg/tasks/state.py:419-436 | opens the effect durably, or refuses a replay or a second open effect |
| TaskState.DurableEffectJournal.AfterExecute | src/ulg/tasks/state.py:438-463 | closes the open effect with its outcome and generation, or refuses a mismatch |
| TaskState.DurableEffectJournal.Reconcile | src/ulg/tasks/state.py:465-499 | resolves an interrupted effect from the recovered generation, and returns it only on success |
| TaskStateLaws.OneRequest | src/ulg/tasks/state.py:323-351 | one request leaves everything alone, or moves file and session to the same next revision, or moves only the file, to the state that the session would have had, and makes the session stale |
| TaskStateLaws.StaleIsRefused | src/ulg/tasks/state.py:193-202 | a stale session can write nothing any more |
| TaskStateLaws.RevisionDiscipline | src/ulg/tasks/state.py:193-202 | over any requests and write outcomes, session and file agree or the session is stale for good, and the durable revision rises by exactly one per landed write |
| TaskStateLaws.DiscardAbsorbs | src/ulg/tasks/state.py:48-64 | `Discard` is one step from every phase and leads nowhere else |
| TaskStateLaws.ReconcileResolves | src/ulg/tasks/state.py:465-499 | a pending effect is resolved if and only if the phase is `Execute` or `Review`, or `Retry` with another outcome than success, the journal has room and the write succeeds; a closed phase changes nothing |
| TaskStateLaws.PublishedThenRetryIsStuck | src/ulg/tasks/state.py:489-490 | a published patch pending in `Retry` is refused on every attempt |
| TaskStateLaws.CompletionIsRecorded | src/ulg/tasks/state.py:438-463 | in the loop, with the matching effect open, the completion is recorded if and only if fewer than 1000 effects are recorded and the write succeeds |
| TaskStateLaws.EffectIsOpened | src/ulg/tasks/state.py:419-436 | an effect is opened if and only if the action is new, nothing is open, the table allows `Execute` and the write succeeds, whatever room the journal has |
| TaskStateLaws.OneMoreIsStuck | src/ulg/tasks/state.py:119 | a valid task with 1000 effects opens one more, and then neither its completion nor its reconciliation is ever recorded |
| TaskStateLaws.FullJournalCannotComplete | src/ulg/tasks/state.py:119 | with 1000 effects neither completion nor reconciliation can be recorded, in any phase and whatever the session asks |
| Generations.Workspace.RecoverLatest | src/ulg/workspace/manager.py:146-180 | the loop returns `Recovered` and leaves `RecoveredDisk`, for any disk |
| GenerationLaws.PubFrame | src/ulg/workspace/editor.py:59-93 | no step of publishing touches anything but the successor's directory, staging directory and manifest |
| GenerationLaws.PubRunInv | src/ulg/workspace/editor.py:59-93 | what each point of publishing knows about the successor holds after any number of steps and failures |
| GenerationLaws.RecoverShapes | src/ulg/workspace/manager.py:151-179 | recovery decided by what stands at the successor: nothing, a manifest alone, a matching pair, or a pair that does not match |
| GenerationLaws.PublishAndRecover | src/ulg/workspace/editor.py:59-93 | stop publishing anywhere: earlier generations are untouched, and recovery returns `n` with leftovers gone, or `n + 1` complete and linked to `n`, or raises, each exactly under its stated condition |
| GenerationLaws.RaisesExactlyOnPartial | src/ulg/workspace/manager.py:347-370 | if removing and closing a manifest never fail, recovery raises if and only if manifest `n + 1` was left partial |
| GenerationLaws.VerdictIsTrue | src/ulg/workspace/editor.py:88-109 | `apply` returning means recovery finds `n + 1`; a rejected patch means it finds `n` with nothing left over |
| GenerationWitnesses.PartialIsReachable | src/ulg/workspace/manager.py:347-370 | from every intact directory publishing can be stopped with a partial manifest, and recovery then refuses the task |
| GenerationWitnesses.OrphanIsReachable | src/ulg/workspace/editor.py:88-109 | and, when the manifest cannot be removed after an exception, it can end with a complete manifest whose directory was rolled back, which recovery refuses too |
| PatchedGenerations.PublishedIsPatched | src/ulg/workspace/editor.py:59-93 | stop `apply` anywhere: recovery goes on to generation `n + 1` only if every file patch applied in turn, and then it and its manifest are exactly the patched tree of generation `n`; if some patch does not apply, recovery stays at `n` |
| PatchedGenerations.PublishedPayload | src/ulg/workspace/editor.py:50-93 | so for a patch text that parses, what is adopted is generation `n` with the parsed file patches applied in turn |
| PatchedGenerations.PublishableExactly | src/ulg/workspace/editor.py:59-93 | from a clean directory `apply` can publish if and only if the file patches apply in turn |
| Grants.ScopedGrantStore.IssueAction | src/ulg/approval/grants.py:187-212 | a single-use grant for the exact action, refused outside the lifetime limits |
| Grants.ScopedGrantStore.IssueRecipe | src/ulg/approval/grants.py:214-237 | a bounded grant for a configured recipe, refused for an unknown one |
| Grants.ScopedGrantStore.Register | src/ulg/approval/grants.py:336-344 | a valid new grant is persisted before it is held in memory |
| Grants.ScopedGrantStore.Check | src/ulg/approval/grants.py:346-366 | the checks common to both kinds of use, in the program's order |
| Grants.ScopedGrantStore.Consume | src/ulg/approval/grants.py:239-279 | every check, then persist, then count; memory follows only a write that succeeded |
| Grants.ScopedGrantStore.RevokeRecipe | src/ulg/approval/grants.py:317-334 | removes exactly the grants of the recipe, durably first, and returns normally if and only if none of them is held any more |
| Grants.ScopedGrantStore.ActiveRecipeGrants | src/ulg/approval/grants.py:294-315 | every restored grant is live and matching, and every recipe with such a grant gets one |
| GrantLaws.RejectionChangesNothing | src/ulg/approval/grants.py:248-258 | a rejected use changes neither memory nor file, a failed write not the memory, and a successful one adds exactly this action |
| GrantLaws.EventKeeps | src/ulg/approval/grants.py:368-386 | every issue, use, revocation, deletion and reload keeps the ledger within its grants |
| GrantLaws.GrantBound | src/ulg/approval/grants.py:239-279 | over every interleaving and reload, the uses of a grant that returned are distinct actions, at most `max_uses`, each before expiry under the issuing task and configuration, and all on every record |
| GrantLaws.LedgerTotal | src/ulg/approval/grants.py:336-386 | all uses together are at most the sum of `max_uses` over the grants that were issued; a refused grant, or one whose write did not land, adds nothing |
| ProtocolSteps.StepKeeps | src/ulg/cli.py:725-919 | every step of the whole task protocol keeps the invariant, with errors and interrupts anywhere in the loop, during a publication and before its outcome is recorded included |
| ProtocolSteps.RunKeeps | src/ulg/cli.py:725-919 | so does every run |
| ProtocolSteps.RecoveredDiskOk | src/ulg/cli.py:766-769 | resuming adopts the recorded generation, or its successor when a patch is pending, and what it adopts is intact |
| ProtocolSteps.PublishDisk | src/ulg/tools/coding.py:99-122 | while a patch is pending, publishing keeps the recorded generations and adds at most one |
| ProtocolHistory.StepFollows | src/ulg/tasks/state.py:389-499 | one step changes the state file by at most one landed write along the table that opens one new effect, closes the open one, or neither |
| ProtocolHistory.DurableHistory | src/ulg/tasks/state.py:48-64 | every durable history is such a path, and a deleted task stays deleted |
| ProtocolHistory.HistoryLasts | src/ulg/tasks/state.py:389-499 | between any two points of a run revisions never fall, effects only grow, a discarded state never changes, an open effect stays open until recorded, and is never resolved once the phase is `Cancel`, `Export` or `Discard` |
| ProtocolTheorems.AtMostOnce | src/ulg/tasks/state.py:419-436 | no action reaches the patch or sandbox tool twice over the life of a task, and each one that did is in the durable journal |
| ProtocolTheorems.PendingBeforeExecution | src/ulg/controller.py:321-325 | a tool only runs the action that the state file already holds as pending and that was never recorded or run before |
| ProtocolTheorems.JournalConservation | src/ulg/tasks/state.py:438-499 | effects chain from generation 0; with nothing pending the generation is the number of succeeded patches and the one that recovery finds; with a patch pending the workspace is ahead by at most one |
| ProtocolTheorems.LoopPhases | src/ulg/cli.py:781-826 | in the controller loop the session is the durable state in `Execute` or `Review`, so no hook is refused by the phase table, the revision or a mismatch |
| ProtocolTheorems.StaleWritesNothing | src/ulg/tasks/state.py:344-349 | a live session is the durable state, or one landed-but-failed write behind it, and then the file never changes again while it lives |
| ProtocolTheorems.StaleIsCandidate | src/ulg/tasks/state.py:344-349 | however a write ends, the state file is what it was or exactly what the same step leaves when its write succeeds, so a session that falls behind does so by the one candidate it was writing |
| ProtocolTheorems.AuthorisedExecution | src/ulg/controller.py:249-325 | what was executed after asking was paid for by the last consumption that returned, made for this action; sandbox runs are always asked for |
| ProtocolTheorems.SandboxBound | src/ulg/controller.py:397-539 | over the whole life of a task the sandbox runs at most as often as the issued grants allow in sum |
| ProtocolResume.ResumesExactly | src/ulg/cli.py:736-781 | whatever a task went through, starting it again leads back into the loop, if nothing fails on the way, if and only if it was not exported or discarded, its workspace recovers, and its open effect, if any, can be recorded and its outcome's phase is allowed |
| ProtocolWitnesses.PublishedThenRetry | src/ulg/cli.py:889-919 | every new task with room for one generation can publish its first patch, fail to record it and be moved to `Retry`; from there, whatever is tried, the patch stays pending until a discard begins to delete |
| ProtocolWitnesses.PublishedThenCancel | src/ulg/cli.py:866-880 | every such task can instead be interrupted and moved to `Cancel`, and the published patch stays pending for as long as the task exists |
| Lease.StepKeeps | src/ulg/tasks/state.py:251-302 | while the state file exists or is still to come every descriptor refers to the inode at the lock path, and locks are exclusive |
| Lease.OneLiveSession | src/ulg/tasks/state.py:282-302 | two processes never hold a loaded session of one task, although the lock inode is removed |
| Lease.RemovedLast | src/ulg/tasks/state.py:251-280 | the lock file is removed only after the state file, by the process that deleted it, and the inode check never fails |
| Lease.RaceIsReachable | src/ulg/cli.py:1228-1247 | a process can have the old lock file open when the cleaner is about to remove it |
| Lease.SecondCreateBreaks | src/ulg/tasks/state.py:179-184 | from there a second create of the same identifier gives two live sessions |
| ControllerTrace.LawfulMeans | src/ulg/controller.py:225-325 | in a lawful trace whatever was executed was allowed, or asked for with a consumption for it as the event just before; model calls are within the context limit; consumptions are on record and never repeated |
| ControllerTrace.RepeatsAreBounded | src/ulg/controller.py:213-223 | among any `max_repeated_actions + 1` consecutive proposals that reach the policy two differ |
| ControllerTrace.ConsumptionBound | src/ulg/controller.py:488-539 | in a lawful trace whose consumptions are new uses in valid records, the uses a grant had before and its consumptions are together at most what it allows |
| Controller.ReadOnlyController.ConsumeGrant | src/ulg/controller.py:488-539 | a grant is used up for the action and noted, or the rejection is noted, or an error passes through; without a configuration it is refused and nothing is noted |
| Controller.ReadOnlyController.AskUser | src/ulg/controller.py:412-486 | approval yields a grant that is consumed at once; anything else consumes nothing |
| Controller.ReadOnlyController.Authorize | src/ulg/controller.py:397-486 | authorisation means exactly one consumption, the last event, for this action |
| Controller.ReadOnlyController.Act | src/ulg/controller.py:213-391 | one valid proposal: counters and trace stay in step, and completion reports them |
| Controller.ReadOnlyController.Loop | src/ulg/controller.py:180-393 | the loop ends in a report that adds up, or in one of the stops |
| Controller.ReadOnlyController.Run | src/ulg/controller.py:154-395 | one opening and one terminal event; `turns == tool_calls + denied + model_failures + 1`; approved actions are the consumptions, tool calls the finished tools, sandbox runs the finished sandbox runs; the trace is lawful; and from a store of valid records, each grant's earlier uses and its consumptions in the run are together at most `max_uses` |
| BoundedWalk.WalkStep | src/ulg/tools/read_only.py:152-203 | stretches of a bounded walk compose: it takes the steps of the whole walk in order and stops exactly at the first that is not allowed |
| BoundedWalk.WalkedLongest | src/ulg/tools/read_only.py:152-203 | a walk from the start takes exactly the longest part that its budgets allow, and is truncated if and only if the whole walk is not allowed |
| BoundedWalk.LongestIsUnique | src/ulg/tools/read_only.py:152-203 | there is only one such part, so the result of a bounded walk is determined |
| ListWalk.Lister.ListDirectory | src/ulg/tools/read_only.py:152-203 | takes the steps of the unbounded preorder walk, entries reported and directories entered, up to the first outside the entry, byte or depth budget, and is then truncated, or up to the first visible unsafe entry, and then fails, whichever comes first |
| ListWalk.ListFiles | src/ulg/tools/read_only.py:49-83 | the entries are those of the longest part of the unbounded walk within the entry, byte and depth budgets, none deeper than one below the depth limit; truncated if and only if that is not the whole walk; refused as unsafe if and only if a visible entry is unsafe and everything before the first such is within the budgets |
| ListWalk.ListingIsBest | src/ulg/tools/read_only.py:49-83 | that longest part reports a prefix of the unbounded listing within the budget, and is the whole walk if and only if the whole listing is within the budget and no directory is too deep |
| SearchWalk.Searcher.SearchLines | src/ulg/tools/read_only.py:275-297 | reports the matching lines of one file in order up to the first that does not fit, and is truncated if and only if there is one |
| SearchWalk.Searcher.SearchDirectory | src/ulg/tools/read_only.py:205-250 | takes the steps of the unbounded search, entries visited and matches reported, up to the first outside the match, byte, entry or depth budget, and is then truncated, or up to the first visible unsafe entry, and then fails, whichever comes first |
| SearchWalk.SearchText | src/ulg/tools/read_only.py:117-150 | the matches are those of the longest part of the unbounded search within the match, byte, entry and depth budgets, none deeper than one below the depth limit; truncated if and only if that is not the whole search; refused as unsafe if and only if a visible entry is unsafe and everything before the first such is within the budgets |
| SearchWalk.SearchIsBest | src/ulg/tools/read_only.py:117-150 | that longest part reports a prefix of all matches within the budget, and is the whole search if and only if all matches are within the budget, few enough entries are visited and no directory is too deep |
| Snapshot.IsGitignored | src/ulg/workspace/exclusions.py:52-70 | the loop finds whether some rule set ignores the path and none after it decides otherwise |
| Snapshot.Copier.CopyFile | src/ulg/workspace/manager.py:664-717 | a file is recorded exactly when the quotas allow it |
| Snapshot.Copier.CopyDirectory | src/ulg/workspace/manager.py:470-568 | it succeeds if and only if nothing kept is unsafe, every ignore file is usable and the quotas hold, and then writes and records exactly what the rules keep |
| SnapshotLaws.KeptExactly | src/ulg/workspace/manager.py:470-568 | a file is in the copy if and only if it is in the source and neither it nor a directory above it is excluded or ignored under the rules inherited on the way |
| SnapshotLaws.SnapshotIsExact | src/ulg/workspace/manager.py:470-568 | the same for what the manifest records: path, size, digest and executable bit |
| SnapshotLaws.FilesAreFound | src/ulg/workspace/manifests.py:134-195 | a walk records exactly the files that can be found by path |
| SnapshotLaws.FilesDistinct | src/ulg/workspace/manifests.py:60-63 | recorded paths are distinct |
| Manifests.ManifestIsCanonical | src/ulg/workspace/manifests.py:86-102 | entries in any order give the same manifest, and it is a valid summary |
| Manifests.WalkOrderIsNotStringOrder | src/ulg/workspace/manifests.py:93 | the order of a walk is not the order of the paths |
| Manifests.Scanner.ScanDirectory | src/ulg/workspace/manifests.py:134-195 | a scan records exactly the files of a tree, or fails if and only if something is not plain or a quota is exceeded |
| Manifests.Create | src/ulg/workspace/manager.py:78-125 | copy, scan, compare and write: the scan never fails after a copy and never disagrees with it; success is exactly copyability within the quotas together with a manifest within its byte limit, and each failure says which of the two was missing |
| Utf8.TruncateUtf8 | src/ulg/cli.py:1165-1174 | the trimming loop returns the longest valid prefix of the cut |
| Utf8.LongestValidIsLongest | src/ulg/cli.py:1165-1174 | it is valid, a prefix, and no longer prefix is valid, for any bytes |
| Utf8.CutIsTight | src/ulg/tools/coding.py:124-151 | for valid text the result is the longest valid prefix within the limit, at most three bytes short of it, and the whole text when it fits |
| Utf8.DecodePrefix | src/ulg/tools/read_only.py:321-331 | decoding gives up at most four bytes of a cut payload and none of a whole one |
| Utf8.DecodesTheSameCut | src/ulg/tools/read_only.py:321-331 | a cut of a valid file always decodes, to the prefix that truncation returns |
| Utf8.CutDecodes | src/ulg/tools/read_only.py:321-331 | a cut decodes if and only if dropping at most four bytes leaves valid text |
| Utf8.CutOfTextEndsInChar | src/ulg/tools/read_only.py:321-331 | bytes begin some valid text if and only if what follows their longest valid prefix is empty or the start of a character |
| Utf8.Misread | src/ulg/tools/read_only.py:321-331 | a cut that begins no valid text is decoded all the same if and only if what follows its longest valid prefix has at most four bytes and starts no character |
| Utf8.BadTailIsAccepted | src/ulg/tools/read_only.py:321-331 | one such cut: a letter and four bytes that are no UTF-8 read as the letter |

## Left out

- Docker, subprocess and selector code, the model client, terminal prompts, argument parsing and release scripts: calls into other systems and user interface.
- Descriptor-level file access, symbolic-link and mount checks, races between `stat` and `open`, and sealing by `chmod`: operating-system behaviour. A directory is a tree of names, a file that changes while it is read is not modelled.
- SHA-256, canonical JSON and record serialisation: a digest is taken for what it covers, and a record for its serialisation. The validators are kept as predicates.
- Python's other line separators: `splitlines` also breaks at carriage returns, form feeds and others; texts here have `\n` only.
- Hunk headers with digits outside ASCII, which the pattern `\d` accepts, and numbers beyond the interpreter's conversion limit.
- The alignment `difflib` chooses and the gitignore pattern language: any valid alignment, and any three-valued matcher.
- Empty directories left or removed in the staging tree, and the modes of files other than the executable bit; files that are not UTF-8 text or contain NUL are taken as not editable.
- Power loss: after `os.replace` the new state file is there, whether or not the directory was synchronised.
- Interrupts inside one call: a crash or failure strikes between two steps of the machine, not inside one.
- Revocation after a crash: `revoke_recipe` runs after the pending effect was reconciled, so a crash between the two leaves the recipe grants in force; no claim is made that they are gone.
- Configuration validation, audit event schemas and the audit sink (which is assumed not to fail), summaries and cleanup size reporting: they would only add easy members.
- The branches of the policy: decisions are inputs, except that a sandbox run is never allowed without asking (src/ulg/policy/engine.py:76-81).
- Grant records are a map: the order in which they are written is not modelled.
- The checks of `WorkspaceEditor.apply` before publication: the byte limit on the patch, the limit on changed files, and the exclusion of paths.
- `WorkspaceEditor.apply` is a step function over disk values, one atomic change a step, because a crash can stop it anywhere; its patches are `TreeDiff.Staging`.
- The task protocol is a step function for the same reason; its calls are the functions that the classes of `TaskState`, `Generations` and `Grants` are proved to implement.
- Controller.ReadOnlyController.Run: the loop body is cut into methods, the counters travel in one record, messages are their sizes, and the effect journal answers from the script; the journal itself is in the task protocol.
- Generations.Workspace.RecoverLatest: removing a leftover directory is one step here; a removal cut short leaves a leftover again.
- SearchWalk.SearchText: a file's size and the bytes read from it agree, and case folding is part of the abstract line test.
