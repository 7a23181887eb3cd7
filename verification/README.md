# Astonish: verified models of its stateful cores

Astonish is a command line and server for AI agents that run in sandboxes. Around its forms and
printing it holds a number of small state machines and algorithms whose behaviour is hard to see
from any one function. This project models those in Dafny and proves what they keep, restore or
lose. `dafny verify dfyconfig.toml` checks everything.

Code that works step by step in the original is imperative here too (classes with the fields the
original updates, loops with invariants); each such method is proved against a specification
function or predicate, and the theorems are about that specification. Databases, pods, files,
clocks, forms and streams are parameters: a plan says which step fails and what a failing step
leaves behind, a history says what a file holds at each instant.

| Files | Subject |
|---|---|
| SandboxAudit, SandboxAuditProperties | the storage audit: classification, reclaim steps that fail partway, safety, convergence |
| SessionTrace, SessionTraceProperties, SessionTraceLines | the one-pass trace renderer against a declarative grouping, and every line against the events |
| SessionTree, ChildSessions | ancestor chains, the repair worklist, the recursive sub-session walk |
| TranscriptRepair | backup names, and what a repair run leaves of every file |
| LayerChain, TemplateRegistry | overlay layer chains over cyclic or dangling parent maps, and the commands that change the map |
| Resolution | partial session identifiers; sandbox sessions by identifier or reference |
| SessionVault, NodeServer | the credential cache keyed by modification time, with a racing writer; the request loop |
| HookChain, BulkCreate, BulkCreateProperties | hook composition; bulk create through mutually invoking closures |
| FlowTurn | the remote flow's turn decision and message exchange |
| EscapePlaceholders | the placeholder escape as a left-to-right scan |
| VersionOrder, DistChoice | the update check against section 11 of Semantic Versioning 2.0.0; the asset directory choice |
| Provisioning, ProvisioningProperties | the seven setup steps, interrupted and run again |
| ProviderSecrets, ProviderSecretProperties, SecretCleaning | splitting a provider's configuration and loading it back |
| RestoreArgs, RestoreGrammar, RunArgs | the restore command's argument loop against a grammar; the run command's flag splitter |
| Seqs, Trimming, StringOrder, Decimal | shared vocabulary |

## What turned out differently from what the repository says

* The audit's `--grace` is described as the grace period for orphan detection
  (`cmd/astonish/platform_sandbox_audit.go:29`, `:586`); the code applies it only to rows with no
  references. Orphan and staging directories are reclaimed whatever their age.
* A reclaim run leaves a clean second audit exactly when the state is reclaimable
  (`ConvergesExactlyWhenReclaimable`). Besides unsafe names, a row that still has references but no
  directory is outside: its deletion is refused, so it is reported for ever.
* `save` can make a template its own parent; `snapshot` only when no parent was recorded.
* The trace walk over child sessions does not end when a renderable session leads back to its root.
* The vault cache is fresh over every schedule exactly when modification times identify content;
  two writes in one clock tick defeat it.
* When every check passes, the bulk create is all-or-nothing on every database exactly when every
  hook of every builder calls `next` once and returns its result, or no batch can be reached and
  success is never answered (`AllOrNothingExactlyWhen`). Otherwise a hook can hide a missing
  batch (`CanHide`), lose a created one by failing after it or by calling `next` again
  (`CanLose`), or run several. A hook that fails after one call leaves a created row and a mutation
  marked done behind an error.
* The update check is said to compare strictly greater versions
  (`cmd/astonish/root.go:280-283`); it stays silent between two pre-releases of one core, and
  components beyond 63 bits are clipped, so that a suggestion can then be a downgrade.
* String order is said to work for versions (`web/embed.go:75`). With unequal digit counts it
  prefers 1.9.0 to 1.10.0. With equal ones the directory picked has a successor by precedence
  exactly when it is a pre-release, betas included, and its own release or a later pre-release of
  its core is there; 1.0.0-rc.9 is picked over 1.0.0-rc.10. When the identifiers are alike in kind
  and shape only the release remains.
* The setup form calls the display name optional (`cmd/astonish/setup.go:1938-1941`), but the user
  table rejects an empty one (`ent/platform/schema/user.go:25-28`), so a fresh setup without it
  stops before its first step; an empty organization name or a password over 72 bytes, the limit
  of the hash, stops it as well.
* The setup reads as if it could be run again after a failure. Adding the membership is a plain
  insert (`pkg/store/entstore/organizations.go:133-149`), so a second run gets stuck there. The
  organization's empty database name is unique (`ent/platform/migrate/schema.go:310-336`), so a
  second organization cannot be set up beside it.
* Cleaning a secret is called idempotent (`pkg/credentials/store.go:151-153`). A second cleaning
  changes nothing exactly when the last visible character the first one leaves is no quote, comma
  or semicolon; it can be one only behind white space other than blanks and tabs. A secret that is
  not clean text is not restored. Merely opening the store rewrites old secrets that are not clean.
* The run command drops an empty argument exactly when no value is due and no name has been seen. Its
  splitter also waits for a value after `--param`, which the flag parser does not define.
* The restore command ignores empty positional arguments before the archive and rejects them after it.
* Setup moves a copilot provider's `github_token` to the credential store under a key the loader
  (`pkg/config/provider_env.go:199-247`) does not look up.
* Template deletion resolves its session by prefix and so can reach another template's session.

## Model

| member | source | states |
|---|---|---|
| SandboxAudit.ScanRows | cmd/astonish/platform_sandbox_audit.go:131-143 | the tracked identifiers, and in order the rows without references older than the grace period |
| SandboxAudit.ScanLayerDirs | cmd/astonish/platform_sandbox_audit.go:151-166 | orphans are the untracked names that are neither empty, the base nor staging; staging leftovers are the rest with the prefix |
| SandboxAudit.ScanMissing | cmd/astonish/platform_sandbox_audit.go:168-178 | the rows, empty identifiers aside, that no listed directory carries |
| SandboxAudit.ScanUpperDirs | cmd/astonish/platform_sandbox_audit.go:180-189 | the non-empty upper directories of no known session |
| SandboxAudit.BuildReport | cmd/astonish/platform_sandbox_audit.go:131-189 | the loops together compute the five classes of the declarative report |
| SandboxAudit.Storage.ReclaimDirs | cmd/astonish/platform_sandbox_audit.go:448-528 | a pod removes exactly the safe names asked for; a failed pod may leave or damage any of them and touches nothing else |
| SandboxAudit.Storage.DeleteLayer | pkg/store/entstore/sandbox.go:142-156 | a deletion is refused for a missing or referenced row and otherwise removes that row alone; the answer may be lost on either side |
| SandboxAudit.Storage.DeleteLayers | cmd/astonish/platform_sandbox_audit.go:298-309 | deletions run one by one past failures; with no lost answer the printed count is the number of rows gone |
| SandboxAudit.Storage.Audit | cmd/astonish/platform_sandbox_audit.go:191-313 | the early return and the reclaim order give the specified state for every flag combination and failure pattern |
| SandboxAuditProperties.ReportMembers | cmd/astonish/platform_sandbox_audit.go:131-189 | membership of each of the five classes in terms of the listings, both directions |
| SandboxAuditProperties.ReportKeepsOrder | cmd/astonish/platform_sandbox_audit.go:131-189 | each class keeps the order and the repetitions of its listing; stale rows have no reference and are older than the grace period |
| SandboxAuditProperties.OnlyDirsAtRiskChange | cmd/astonish/platform_sandbox_audit.go:255-296 | under every failure pattern only an orphan, a staging leftover or a stale unreferenced layer can lose or change its directory |
| SandboxAuditProperties.DirsAtRiskAreRemoved | cmd/astonish/platform_sandbox_audit.go:255-286 | with working pods exactly those directories are removed |
| SandboxAuditProperties.EachPodRemovesItsOwn | cmd/astonish/platform_sandbox_audit.go:255-286 | a removal pod that succeeds removes its own directories whatever becomes of the other |
| SandboxAuditProperties.NamesStayInTheVolume | cmd/astonish/platform_sandbox_audit.go:448-470 | no name that is empty or has a slash or two dots is removed or damaged |
| SandboxAuditProperties.OnlyUppersAtRiskChange | cmd/astonish/platform_sandbox_audit.go:250-256 | without reclaim, or outside the listed directories of unknown sessions with a safe name, an upper directory keeps its content, whatever fails |
| SandboxAuditProperties.UppersAtRiskAreRemoved | cmd/astonish/platform_sandbox_audit.go:287-295 | with a working pod exactly those upper directories are removed, and only with reclaim |
| SandboxAuditProperties.FailedPodsLeave | cmd/astonish/platform_sandbox_audit.go:255-295 | of the directories at risk a failed pod leaves what it leaves |
| SandboxAuditProperties.OnlyRowsAtRiskGo | cmd/astonish/platform_sandbox_audit.go:277-309 | a row survives unless it was seen stale and its directory's pod went through, or was seen without directory, and is unreferenced when deleted |
| SandboxAuditProperties.RowsGoExactlyWhen | cmd/astonish/platform_sandbox_audit.go:277-309 | for every failure pattern a row goes exactly when a deletion of it is issued, reaches the database and finds no reference |
| SandboxAuditProperties.RowsAtRiskGo | cmd/astonish/platform_sandbox_audit.go:277-309 | with an answering database those are exactly the unreferenced rows at risk |
| SandboxAuditProperties.StaleRowNeedsItsPod | cmd/astonish/platform_sandbox_audit.go:270-286 | a listed stale row whose removal pod failed stays |
| SandboxAuditProperties.LiveLayerKeepsDirectory | cmd/astonish/platform_sandbox_audit.go:132-166 | a tracked, not stale, non-staging, listed layer keeps its directory whatever fails and whatever else changed meanwhile |
| SandboxAuditProperties.LiveLayerKeepsRow | cmd/astonish/platform_sandbox_audit.go:132-178 | and its row |
| SandboxAuditProperties.BaseLayerKept | cmd/astonish/platform_sandbox_audit.go:156-158 | the base layer is kept unless a stale unreferenced row names it |
| SandboxAuditProperties.KnownUpperKept | cmd/astonish/platform_sandbox_audit.go:180-189 | no known session's upper directory is touched |
| SandboxAuditProperties.LatePublishedRow | cmd/astonish/platform_sandbox_audit.go:169-178 | with row reclaim on, a row whose directory appeared after the listing is lost exactly when it is still unreferenced |
| SandboxAuditProperties.UndisturbedRun | cmd/astonish/platform_sandbox_audit.go:255-309 | which directories and rows remain after a run where nothing fails, entry by entry |
| SandboxAuditProperties.CleanMeans | cmd/astonish/platform_sandbox_audit.go:207-211 | the audit reports a clean storage exactly when no entry falls in any class |
| SandboxAuditProperties.ConvergesExactlyWhenReclaimable | cmd/astonish/platform_sandbox_audit.go:131-309 | after an undisturbed run with both flags a second audit at the same clock is clean if and only if the first state was reclaimable |
| SandboxAuditProperties.ReferencedRowStaysReported | pkg/store/entstore/sandbox.go:151-153 | a referenced row without directory is reported again after every reclaim |
| SandboxAuditProperties.AnyRun | cmd/astonish/platform_sandbox_audit.go:255-309 | what any failing run can do to one name: nothing appears, kept rows are unchanged, rows with listed directories stay |
| SandboxAuditProperties.FailureKeepsReclaimable | cmd/astonish/platform_sandbox_audit.go:255-309 | no failure pattern leads out of the reclaimable states |
| SandboxAuditProperties.FailedRunsAreRecoverable | cmd/astonish/platform_sandbox_audit.go:255-309 | after any number of failing runs one undisturbed run leaves nothing to report |
| SessionTrace.RenderTurn | cmd/astonish/session_trace.go:78-91 | a new invocation flushes, counts a turn and prints its separator unless only tools are shown |
| SessionTrace.RenderPart | cmd/astonish/session_trace.go:93-175 | a part's text, call and response act on buffer, output, timestamps and counters as its tokens say |
| SessionTrace.RenderSessionTrace | cmd/astonish/session_trace.go:48-193 | the one-pass machine prints exactly the declarative grouping of the last events followed by the true counts |
| SessionTrace.MachineRestartsAtBarrier | cmd/astonish/session_trace.go:58-181 | output before a flush point is independent of what follows |
| SessionTrace.GroupedIsEmittedThenFlushed | cmd/astonish/session_trace.go:58-181 | splitting at turn changes, user text, thinking and calls and joining each run's text equals the machine with its final flush |
| SessionTraceProperties.GroupingConserves | cmd/astonish/session_trace.go:115-117 | nothing lost, duplicated or reordered in the blocks, and all other lines kept |
| SessionTraceProperties.TraceConservesModelText | cmd/astonish/session_trace.go:73-181 | with everything shown the model blocks spell exactly the model text of the shown events |
| SessionTraceProperties.BarriersSplitTheTrace | cmd/astonish/session_trace.go:79-125 | text before a turn change, user text, thinking or call is printed before it, text after it after it |
| SessionTraceProperties.OnlyResponsesOvertake | cmd/astonish/session_trace.go:141-174 | between such points only response lines precede the buffered text, which is one block |
| SessionTraceProperties.BlocksAreMaximal | cmd/astonish/session_trace.go:58-181 | two model blocks always have a flushing line between them, and no block is empty |
| SessionTraceProperties.ToolsOnlyHasNoText | cmd/astonish/session_trace.go:99 | with only tools shown no text reaches the machine |
| SessionTraceLines.TraceShowsTheEvents | cmd/astonish/session_trace.go:73-193 | all lines but the model blocks are, in order, the ones the events call for: turn changes numbered, user texts, thoughts, calls, errors or results with the time since the last call under their identifier; then the counts |
| SessionTraceLines.TraceKindByKind | cmd/astonish/session_trace.go:48-193 | user blocks spell the user's texts, thinking blocks the thoughts, call lines are the calls with their times, turns count from one, the summary counts the call and error lines |
| SessionTraceLines.LastTurnMeans | cmd/astonish/session_trace.go:79-86 | the turn tracker holds the invocation of the last event that names one |
| SessionTraceLines.MillisecondsTowardsZero | cmd/astonish/session_trace.go:147-150 | durations are whole milliseconds, cut off towards zero |
| SessionTree.AncestorChain | pkg/session/file_store.go:821-842 | root first, the session last, linked, duplicate-free, ending only at a missing parent or a cycle |
| SessionTree.ListChildren | pkg/session/index.go:191-208 | exactly the sessions with that parent, in no particular order |
| SessionTree.RepairQueue | cmd/astonish/sessions.go:416-432 | the growing worklist ends without duplicates, starts with the chain and is the least set containing it and closed under children |
| SessionTree.ClosureIsTheTree | cmd/astonish/sessions.go:410-432 | that least set is the whole tree under the chain's root |
| SessionTree.RepairTargets | cmd/astonish/sessions.go:410-432 | repair reaches every session of the tree that contains the requested one, each once |
| ChildSessions.SortByCreation | cmd/astonish/session_trace.go:214-217 | the same children in creation order |
| ChildSessions.RenderChild | cmd/astonish/session_trace.go:221-253 | a header, then the trace or the reason why there is none; descent only after a trace |
| ChildSessions.RenderChildSessions | cmd/astonish/session_trace.go:208-258 | the walk ends and prints, depth-first and by creation time, two lines for each session reachable through renderable ones: its header, and at once its trace or the reason why there is none, indented by its distance; a session is listed below another exactly when that one's trace is printed |
| ChildSessions.PathsArePrintedInPairs | cmd/astonish/session_trace.go:223-253 | the line after a header says what became of that very session's transcript |
| ChildSessions.VisitOneDown | cmd/astonish/session_trace.go:255-256 | one level down come exactly the children of the sessions that render |
| ChildSessions.CallPathHasNoRepeats | cmd/astonish/session_trace.go:255-256 | the recursion never meets a session twice on one path, which bounds its depth |
| ChildSessions.VisitsAreUnique | cmd/astonish/session_trace.go:208-258 | a session is reached along one path only |
| ChildSessions.CycleDescendsForever | cmd/astonish/session_trace.go:255-256 | from a renderable cycle there are call paths of every length |
| ChildSessions.BoundedExactlyWhenNotOnCycle | cmd/astonish/session_trace.go:208-258 | the call depth is bounded exactly when no renderable session below the root leads back to it |
| ChildSessions.TwoSessionCycle | cmd/astonish/session_trace.go:208-258 | two sessions that are each other's parents, where it is not |
| ChildSessions.WalkAgreesWithWorklist | cmd/astonish/session_trace.go:208-258 | when every transcript renders the walk visits what the repair worklist reaches, minus the session itself |
| ChildSessions.WalkStaysInWorklist | cmd/astonish/session_trace.go:232-249 | otherwise it visits a subset, those behind renderable sessions |
| TranscriptRepair.CandidatesDiffer | cmd/astonish/sessions.go:479-485 | all backup names tried for a path differ |
| TranscriptRepair.CandidateIsNoTranscript | cmd/astonish/sessions.go:479-485 | no backup name is a transcript name |
| TranscriptRepair.Disk.FreshBackup | cmd/astonish/sessions.go:479-485 | the search ends with the first name no file has |
| TranscriptRepair.Disk.RepairOversized | pkg/session/transcript.go:387-421 | the backup holds the old content before the transcript loses its oversized lines; each failure leaves what it leaves |
| TranscriptRepair.Disk.RepairAll | cmd/astonish/sessions.go:475-493 | wherever the run stops no content is lost; every transcript handled so far is repaired, the rest untouched |
| TranscriptRepair.StepKeepsIntact | pkg/session/transcript.go:409-420 | one repair under a fresh name keeps every earlier content somewhere |
| TranscriptRepair.KeptAreTheFittingLines | pkg/session/transcript.go:243-250 | what a repair keeps are, in order, exactly the lines of at most ten megabytes |
| TranscriptRepair.CompletedRunCleans | cmd/astonish/sessions.go:475-493 | after a run that went through on right counts every named transcript is its fitting lines |
| LayerChain.OverlayLayerChain | cmd/astonish/sandbox.go:1197-1221 | the marking walk ends on every map and computes the specified chain |
| LayerChain.NamesOfTheBase | cmd/astonish/sandbox.go:1184-1195 | the base goes by three names, white space around them aside |
| LayerChain.ChainIsUnique | cmd/astonish/sandbox.go:1197-1221 | the result is the one sequence that starts at the base, ends at the name, follows parents, repeats nothing and stops only at the base or a cycle |
| LayerChain.ChainLength | cmd/astonish/sandbox.go:1201-1218 | its length is at most the number of entries plus two |
| LayerChain.ChildExtendsParentChain | cmd/astonish/sandbox.go:1218 | chain(child) is chain(parent) and child exactly when child is no ancestor of its parent |
| LayerChain.AcyclicChainIsPlain | cmd/astonish/sandbox.go:1203-1219 | on acyclic maps the walk is plain parent recursion |
| LayerChain.ChainFrame | cmd/astonish/sandbox.go:1223-1231 | entries outside a chain do not matter to it |
| LayerChain.ChainCutAt | cmd/astonish/sandbox.go:1207-1217 | a member that loses its parent, or gets one from its own chain, cuts the chain to the base and the part from it |
| TemplateRegistry.Registry.Register | cmd/astonish/sandbox.go:1233-1252 | only non-empty description and parent overwrite; a failed write leaves the registry |
| TemplateRegistry.Registry.TouchSnapshot | cmd/astonish/sandbox.go:1254-1272 | a snapshot fills a missing parent and never replaces one |
| TemplateRegistry.Registry.Run | cmd/astonish/sandbox.go:704-1010 | the registry effect of create, save, snapshot and delete, none of them on a base name |
| TemplateRegistry.RunKeepsUnrelatedChains | cmd/astonish/sandbox.go:1223-1272 | across any run of commands a chain without the touched templates is unchanged |
| TemplateRegistry.DeleteCutsChains | cmd/astonish/sandbox.go:1002-1007 | deleting a template turns every chain through it into the base and its suffix from there |
| TemplateRegistry.WhenATemplateBecomesItsOwnParent | cmd/astonish/sandbox.go:721-725 | exactly a save from a session of that template, or such a snapshot with no recorded parent |
| TemplateRegistry.OwnParentIsCut | cmd/astonish/sandbox.go:1207-1209 | a template that is its own parent has the chain base and itself, and cuts every chain through it |
| TemplateRegistry.ParentSurvivesRun | cmd/astonish/sandbox.go:1233-1272 | a recorded parent survives every run of commands without a save or deletion of that template |
| TemplateRegistry.DescriptionSurvivesRun | cmd/astonish/sandbox.go:1233-1252 | a saved description survives every run without another save with one or a deletion |
| TemplateRegistry.SnapshotTimeSurvivesRun | cmd/astonish/sandbox.go:1254-1272 | the recorded snapshot time is that of the last snapshot |
| TemplateRegistry.NewTemplate | cmd/astonish/sandbox.go:1233-1272 | what the first command on a template records |
| TemplateRegistry.NothingWritten | cmd/astonish/sandbox.go:704-1010 | commands on the base, and commands whose write fails, change nothing |
| Resolution.ResolveSessionID | cmd/astonish/sessions.go:554-582 | for any iteration order the outcome is the one the key set determines |
| Resolution.OutcomeIsOrderIndependent | cmd/astonish/sessions.go:566-581 | two iteration orders give the same outcome, the listed matches included |
| Resolution.WhenAmbiguous | cmd/astonish/sessions.go:560-581 | an exact match wins; ambiguity is reported exactly without one and with two prefix matches |
| Resolution.ResolveDockerSession | cmd/astonish/sandbox.go:302-325 | the two loops compute first exact match, else the only prefix match |
| Resolution.ResolutionMeans | cmd/astonish/sandbox.go:302-325 | identifiers and references alike: the first exact match, else the only prefix match; several are an error, none is not found |
| Resolution.OrderMattersOnlyForExactTies | cmd/astonish/sandbox.go:307-324 | listing order never matters exactly when no two different sessions match exactly |
| Resolution.WhenResolutionIsInexact | cmd/astonish/sandbox.go:312-324 | when a session that is not the one named is returned |
| Resolution.DeleteCanHitAnotherTemplate | cmd/astonish/sandbox.go:999-1001 | deleting template py can resolve to the session of template python |
| SessionVault.SessionVault.CredentialStore | cmd/astonish/node.go:44-71 | one call's new cache and answer, for every outcome of stat and load |
| SessionVault.CacheIsTraceable | cmd/astonish/node.go:59-70 | after any schedule the cached store was loaded at an instant not before its recorded stat |
| SessionVault.FreshExactlyWhenMtimeIdentifies | cmd/astonish/node.go:59-70 | every hit and reload after every schedule returns content of that call's interval if and only if modification times identify content |
| SessionVault.StrictWritesAreFresh | cmd/astonish/node.go:35-36 | if each write gives a time above all earlier ones, every hit and reload after every schedule is fresh |
| SessionVault.SameTickWriteIsMissed | cmd/astonish/node.go:60-62 | two writes in one tick are a history where they do not |
| SessionVault.QuietCallRereads | cmd/astonish/node.go:59-70 | a call during which the file rests answers what re-reading would, whatever raced before: the next call corrects a race |
| SessionVault.RemovalForgets | cmd/astonish/node.go:48-55 | after a call that saw no file any later schedule behaves as on a new cache, whatever came before |
| SessionVault.LoadAfterRemoval | cmd/astonish/node.go:50-70 | the next call that loads decides the store, whatever times the old and the new file carry |
| SessionVault.FailuresLeaveNoTrace | cmd/astonish/node.go:56-66 | a call whose stat or load fails, or that loads what does not decode, can be dropped from any schedule: the last good store stays |
| NodeServer.Server.Handle | cmd/astonish/node.go:105-151 | one line's reply, dispatch and cache consultation |
| NodeServer.Server.Dispatch | cmd/astonish/node.go:123-151 | the caller is split off, the vault consulted once, the tool's outcome written |
| NodeServer.Server.Serve | cmd/astonish/node.go:104-158 | replies come in order until input ends or the reply to a complete request cannot be written, which stops right there |
| NodeServer.OneReplyPerLine | cmd/astonish/node.go:73-82 | the k-th reply answers the k-th non-blank line |
| NodeServer.RepliesEchoIdentifiers | cmd/astonish/node.go:112-141 | the reply at a line's place has that line's identifier, none for a malformed one |
| NodeServer.RepliesAnswer | cmd/astonish/node.go:104-151 | whichever writes fail, the delivered replies answer their lines in order: same identifier; malformed and incomplete lines named as such; otherwise that tool run without a textual caller argument, for that caller, with the vault after this dispatch |
| NodeServer.OtherLinesDoNotInterfere | cmd/astonish/node.go:106-135 | blank, malformed and incomplete lines leave no trace: vault and replies to requests are those of a session with the dispatched lines alone |
| HookChain.BuildChain | ent/org/ent.go:580-583 | the downward loop makes hook or interceptor 0 outermost |
| HookChain.WithHooks | ent/org/ent.go:514-545 | a nil hook anywhere means nothing runs; otherwise the composed chain runs |
| HookChain.HooksNest | ent/org/ent.go:530-536 | hooks are entered from 0 inwards and left in reverse, the operation runs exactly when none vetoes |
| BulkCreate.WhatDefaultsLeaveToCheck | ent/org/orga2aagent_create.go:193-260 | after defaults only name, URL and creator can fail a check |
| BulkCreateProperties.DefaultsFillTheGaps | ent/org/orga2aagent_create.go:193-218 | a field that is set keeps its value; an unset one gets exactly its own default, if it has one |
| BulkCreateProperties.CheckReportsTheFirst | ent/org/orga2aagent_create.go:221-260 | a check passes exactly when every required column is satisfied and otherwise names the first that is not, as missing or as invalid |
| BulkCreateProperties.SpecIsLossless | ent/org/orga2aagent_create.go:285-350 | after the twelve guarded assignments each column holds its own field's value, and only set fields have one |
| BulkCreateProperties.SpecDeterminesFields | ent/org/orga2aagent_create.go:285-350 | different fields never give the same spec |
| BulkCreate.OrgA2AAgentCreateBulk.MutateInnermost | ent/org/orga2aagent_create.go:364-392 | a builder's own mutator: check, spec, next builder or batch, then the mark |
| BulkCreate.OrgA2AAgentCreateBulk.Mutate | ent/org/orga2aagent_create.go:393-402 | invoking a hook chain that may edit, call on any number of times and answer as it likes |
| BulkCreate.OrgA2AAgentCreateBulk.Save | ent/org/orga2aagent_create.go:353-405 | a pending error, no builders, or the first chain on defaulted builders decide the result |
| BulkCreateProperties.ForwardingCascade | ent/org/orga2aagent_create.go:360-402 | the chain of closures amounts to checking in builder order, one batch, then marking all |
| BulkCreateProperties.SaveIsAllOrNothing | ent/org/orga2aagent_create.go:353-405 | with forwarding hooks the batch runs at most once, only after every check, with specs in builder order; success exactly when all pass; marks on all or none |
| BulkCreateProperties.SavedNodesHoldWhatWasSet | ent/org/orga2aagent_create.go:353-405 | after a save with forwarding hooks node j holds, in every column its hooks leave alone, what builder j set or else the default; so for the identifier |
| BulkCreateProperties.AllOrNothingExactlyWhen | ent/org/orga2aagent_create.go:353-405 | with passing checks, success means one created batch and failure none on every database exactly when all hooks forward, or nothing is reached and success never answered |
| BulkCreateProperties.ForwardingExactlyWhen | ent/org/orga2aagent_create.go:393-402 | hooks that run one batch and can neither hide nor lose one are the forwarding ones |
| BulkCreateProperties.BatchRunsOncePerHookProduct | ent/org/orga2aagent_create.go:375-383 | with passing checks the number of batches is the product of all hooks' call counts, whatever hooks and database answer |
| BulkCreateProperties.BatchesAtMostProduct | ent/org/orga2aagent_create.go:369-383 | with checks that may fail the product is the limit |
| BulkCreateProperties.SuccessMeansCommitted | ent/org/orga2aagent_create.go:386-404 | unless a hook can hide it, success means that the latest batch was created |
| BulkCreateProperties.HidingIsReal | ent/org/orga2aagent_create.go:393-402 | when every further batch is refused success is answered exactly by chains that can hide it |
| BulkCreateProperties.HidingAlwaysSucceeds | ent/org/orga2aagent_create.go:393-402 | such chains answer success on every database |
| BulkCreateProperties.FailureMeansNothingCreated | ent/org/orga2aagent_create.go:386-402 | unless a hook can lose it, failure means that no batch of the call was created |
| BulkCreateProperties.LosingIsReal | ent/org/orga2aagent_create.go:393-402 | where one can, a database that creates the first batch only yields failure with a created batch |
| BulkCreateProperties.MarksMeanCreated | ent/org/orga2aagent_create.go:386-391 | unless a later builder's hooks can hide a missing batch, a new done mark means that a batch was created, whatever is answered |
| BulkCreateProperties.FailingAfterCommit | ent/org/orga2aagent_create.go:386-402 | one hook that calls on and then fails: batch created, mutation marked done, failure answered |
| BulkCreateProperties.MarkedWithoutBatch | ent/org/orga2aagent_create.go:375-391 | a second builder's hook that answers success on its own: first mutation marked done, success, no batch |
| FlowTurn.HandleText | cmd/astonish/agents.go:1279-1309 | printing, box tracking and prompt capture of one text |
| FlowTurn.BoxStep | cmd/astonish/agents.go:1282-1297 | the box flag is a property of the texts so far, an opening and closing text included |
| FlowTurn.HandleEvent | cmd/astonish/agents.go:1255-1335 | one event takes the turn variables from their meaning on the events before to that on one more |
| FlowTurn.RunTurn | cmd/astonish/agents.go:1241-1394 | the fold decides as the simple specification does, prints every text once in order, and captures exactly the text outside boxes |
| FlowTurn.EndWins | cmd/astonish/agents.go:1403-1406 | END ends the flow wherever any request stands |
| FlowTurn.LastRequestDecides | cmd/astonish/agents.go:1311-1335 | otherwise the kind of the last request that parses counts |
| FlowTurn.DecisionMeans | cmd/astonish/agents.go:1311-1335 | without END a turn asks for approval exactly when its last request offers Yes or No first, for input exactly when it offers anything else |
| FlowTurn.ReplyMeans | cmd/astonish/agents.go:1409-1457 | a pre-filled parameter of the current node wins over asking, automatic approval answers Yes without asking; each end has its reason |
| FlowTurn.NodeAfterMeans | cmd/astonish/agents.go:1262-1264 | the current node is the last one named in any turn so far |
| FlowTurn.PrintedMeans | cmd/astonish/agents.go:1286-1309 | the agent's prefix once, then every text |
| FlowTurn.PromptByPosition | cmd/astonish/agents.go:1282-1309 | the prompt is the texts outside boxes, all of them in order |
| FlowTurn.TextsByPosition | cmd/astonish/agents.go:1273-1279 | the texts are those of the text events that parse, all of them in order |
| FlowTurn.RunFlow | cmd/astonish/agents.go:1223-1462 | the first message is empty, each later one is the reply to the turn before, and the run ends with the first turn that quits; each message and the end have their stated reasons |
| EscapePlaceholders.EscapeIsPointwise | pkg/agent/escape_placeholders.go:5-13 | the non-overlapping scan keeps the length and rewrites exactly the braces of placeholders |
| EscapePlaceholders.RewrittenByNeighbours | pkg/agent/escape_placeholders.go:5-7 | a brace is rewritten exactly when the next brace on its inner side is the matching one at distance two or more |
| EscapePlaceholders.EachChangeLowersBraces | pkg/agent/escape_placeholders.go:9-13 | a pass changes the text exactly when there is a placeholder, and then has strictly fewer braces |
| EscapePlaceholders.OnePassSufficesUnlessNested | pkg/agent/escape_placeholders.go:9-13 | a pass leaves a placeholder exactly when one is nested inside other braces |
| EscapePlaceholders.DoubleBracesNeedTwoPasses | pkg/agent/escape_placeholders.go:9-13 | the smallest text for which one pass is not enough |
| VersionOrder.NewerIsStrictWeakOrder | cmd/astonish/root.go:284-338 | on all strings irreflexive, asymmetric, transitive, and never broken by a comparable version in between |
| VersionOrder.UnnumberedBuildsStaySilent | cmd/astonish/root.go:285-289 | a current version that starts with neither a digit nor a v gets no suggestion |
| VersionOrder.DevelopmentBuilds | cmd/astonish/root.go:285-289 | "dev" and the empty text among them |
| VersionOrder.BetaBuildsStaySilent | cmd/astonish/root.go:290-293 | nor does one that mentions beta, in whatever case |
| VersionOrder.BetaInAnyCase | cmd/astonish/root.go:290-293 | the word counts in any mixture of cases |
| UpdateCheck.AtoiOfItoa | cmd/astonish/root.go:304-316 | a component reads as its number, or as the largest 64-bit integer when it does not fit |
| UpdateCheck.AtoiOfNumeral | cmd/astonish/root.go:304-316 | numerals with or without sign, cut off at the 64-bit limits |
| UpdateCheck.AtoiOfText | cmd/astonish/root.go:304-316 | text that is no numeral reads as zero |
| UpdateCheck.ShowParses | cmd/astonish/root.go:299-319 | a well-formed version parses to its clipped components and pre-release text |
| UpdateCheck.ShortVersionsParse | cmd/astonish/root.go:302-311 | missing components are zero |
| UpdateCheck.SuggestionInGeneral | cmd/astonish/root.go:284-338 | for well-formed versions of any size, exactly when an update is suggested |
| UpdateCheck.SuggestionMeansPrecedence | cmd/astonish/root.go:284-338 | with components that fit, a suggestion is made exactly for higher precedence, except from a beta and between pre-releases of one core |
| UpdateCheck.ClippingMisleads | cmd/astonish/root.go:304-329 | two versions with a component that does not fit, where the suggestion is a downgrade |
| DistChoice.ResolveDist | web/embed.go:60-96 | the directory chosen is there and last in string order; the fallbacks without directories |
| DistChoice.ShowOrder | web/embed.go:75-78 | with equal digit counts string order is version order, then the order of the suffixes |
| DistChoice.PickedIsNewest | web/embed.go:75-84 | with equal digit counts the choice leaves a version of higher precedence behind exactly when it is a pre-release whose release, or a later pre-release of whose core, is there |
| DistChoice.PickedByListing | web/embed.go:75-84 | the same in terms of the listing alone: the greatest core present has a pre-release and its release as well, or a pre-release after the one that sorts last |
| DistChoice.JoinOrder | web/embed.go:75-78 | string order of pre-releases is their precedence when corresponding identifiers have one kind, numeric ones one length, others one length or no hyphen |
| DistChoice.PickedAmongAlike | web/embed.go:75-84 | among such pre-releases only the picked one's own release can be left behind |
| DistChoice.PrereleaseHidesRelease | web/embed.go:75-78 | every pre-release, betas included, sorts after the release it precedes |
| DistChoice.BetaHidesRelease | web/embed.go:75-78 | 1.0.0-beta is picked over 1.0.0, and the update check never says so |
| DistChoice.LengthsMatter | web/embed.go:75-78 | 1.0.0-rc.9 sorts after 1.0.0-rc.10 and precedes it |
| DistChoice.PickedBySuggestion | web/embed.go:75-84 | by the update check's own order the choice is beaten exactly when it is a non-beta pre-release whose release is there |
| DistChoice.WidthsMatter | web/embed.go:75-78 | 1.10.0 sorts before 1.9.0 and is newer |
| Provisioning.PlatformStore.GetByEmail | pkg/store/entstore/users.go:71-82 | the first user with the email, or none |
| Provisioning.PlatformStore.GetBySlug | pkg/store/entstore/organizations.go:55-66 | the first organization with the slug, or none |
| Provisioning.PlatformStore.Setup | cmd/astonish/setup.go:1992-2085 | the store and the number of steps done after a run that fails or is interrupted anywhere; a new user needs a name, an address and a password the hash takes |
| Provisioning.PlatformStore.SetupOrg | cmd/astonish/setup.go:2020-2045 | from step 2 on: find the organization or create it, which needs a name and a free empty database name, then the plain membership insert |
| Provisioning.PlatformStore.SetupDatabases | cmd/astonish/setup.go:2047-2085 | from step 4 on: organization database, general team, its database, the personal database |
| ProvisioningProperties.ResumedRunIsOneRun | cmd/astonish/setup.go:1992-2085 | assuming a membership upsert, an interrupted run and a second one leave exactly the store of one run, identifiers mixed from both, on every initial store |
| ProvisioningProperties.ManyAttemptsAreOneRun | cmd/astonish/setup.go:1992-2085 | and so do, under that assumption, any number of interrupted attempts |
| ProvisioningProperties.PlainRerun | cmd/astonish/setup.go:2042-2045 | with the insert as it is, the same holds exactly before the membership step; after it the second run stops there |
| ProvisioningProperties.PlainAttempts | cmd/astonish/setup.go:1992-2085 | with the insert as it is, any number of attempts and a last run leave the store of one run if all stopped before the membership; otherwise the last run fails there and changes nothing |
| ProvisioningProperties.PlainIsStuck | pkg/store/entstore/organizations.go:133-149 | once the membership exists every attempt fails at it and changes nothing |
| ProvisioningProperties.CompletesExactlyWhen | cmd/astonish/setup.go:1992-2085 | a run completes exactly when, at the start, the slug fits, the user exists or is valid, the organization exists or has a name and a free database name, the schema name is free and the plain insert finds no membership |
| ProvisioningProperties.BlankNamesStopSetup | ent/platform/user_create.go:245-262 | a fresh setup without the optional display name does no step, one without organization name does one |
| ProvisioningProperties.CompletedSetup | cmd/astonish/setup.go:1992-2085 | then there is exactly one user for the email, one organization for the slug and one general team, with owner and databases |
| ProvisioningProperties.FreshSetupBuilds | cmd/astonish/setup.go:1992-2085 | on an empty platform a setup with valid input writes exactly these rows and databases |
| ProvisioningProperties.SetupOnlyAdds | cmd/astonish/setup.go:1992-2085 | wherever it stops and whatever was there, it only adds what it is for and touches nothing of others |
| SecretCleaning.CleanShrinks | pkg/credentials/store.go:229-244 | cleaning leaves a value alone exactly when it has no outer white space and no quote, comma or semicolon last |
| SecretCleaning.CleanUndoesDecoration | pkg/credentials/store.go:229-244 | white space in front, matching quotes around and commas, semicolons, blanks and tabs behind a clean value all go |
| SecretCleaning.StableExactlyWhen | pkg/credentials/store.go:229-244 | a second cleaning changes nothing exactly when the last character the first one leaves is no quote, comma or semicolon |
| SecretCleaning.UnstableIsShielded | pkg/credentials/store.go:229-244 | otherwise the value ends, before the last trimming, in white space other than a blank or tab |
| SecretCleaning.CleanIsStable | pkg/credentials/store.go:229-244 | so values whose white space is only blanks and tabs are stable |
| SecretCleaning.CleaningCanDrift | pkg/credentials/store.go:151-156 | a value that reopening the store changes once more |
| ProviderSecrets.CollectSecrets | cmd/astonish/setup.go:800-807 | the non-empty values under the provider type's secret keys, each under its store key |
| ProviderSecrets.SaveProviderSecrets | cmd/astonish/setup.go:775-823 | the split on success; on failure, or without secrets, the map is unchanged and the store at most cleaned, which opening it does |
| ProviderSecrets.SaveProviderToPlatform | cmd/astonish/setup.go:749-767 | the copied configuration, default provider and model are stored, or nothing is |
| ProviderSecrets.SaveProvider | cmd/astonish/setup.go:455-477 | the database keeps the full original after the shared map is scrubbed; the file holds the scrubbed map, or the original when the split failed; other providers are untouched |
| ProviderSecrets.InjectProviderSecrets | pkg/config/provider_env.go:220-247 | stored secrets fill exactly the looked-up keys that are empty |
| ProviderSecretProperties.SplitIsLossless | cmd/astonish/setup.go:787-820 | every non-empty entry ends up in exactly one of map and secrets, unchanged, and no secret stays in the map |
| ProviderSecretProperties.WhatASaveLeaves | cmd/astonish/setup.go:787-820 | by name for each provider type: the file keeps no secret and everything else, the store holds each secret, cleaned, under instance and entry |
| ProviderSecretProperties.OtherInstancesUntouched | cmd/astonish/setup.go:805 | another instance's stored secret stays or is merely cleaned |
| ProviderSecretProperties.StoreKeyInjective | cmd/astonish/setup.go:805 | store keys tell instances and entries apart as long as entry names have no dot |
| ProviderSecretProperties.WhatTheLoaderFills | pkg/config/provider_env.go:199-247 | by name for each provider type: which empty entries loading fills, and from where |
| ProviderSecretProperties.ReloadRestoresExactlyWhen | pkg/config/provider_env.go:199-247 | saving, reopening and loading gives back every value exactly when secrets are clean, no copilot token is among them and no stale secret is found for an empty entry; for every store, clean or not |
| RestoreArgs.Parse | cmd/astonish/platform_restore.go:91-139 | the index loop computes the specified parse with its errors |
| RestoreArgs.ParserImage | cmd/astonish/platform_restore.go:91-178 | the options some argument list produces are exactly those with an archive path that is no flag, mappings of the required slash shape and not both dry-run and confirm |
| RestoreArgs.PrintedOptionsParseBack | cmd/astonish/platform_restore.go:91-178 | such options print, mappings in any order and later ones winning, to arguments that parse back to the same options |
| RestoreArgs.MapArgsParse | cmd/astonish/platform_restore.go:141-173 | mapping arguments build the last-wins map on top of what was there |
| RestoreArgs.AcceptedChoosesOneMode | cmd/astonish/platform_restore.go:84-89 | parsing and validation succeeding means exactly one of dry-run and confirm |
| RestoreGrammar.RejectedExactlyWhen | cmd/astonish/platform_restore.go:91-178 | a list gets an error exactly when good items in order are followed by what that error is about |
| RestoreGrammar.AcceptedExactlyWhen | cmd/astonish/platform_restore.go:91-178 | a list is accepted with given options exactly when it is a sentence of good items, one archive and not both modes, that means them |
| RestoreGrammar.ItemsMean | cmd/astonish/platform_restore.go:93-128 | switches hold when given, the archive is the one non-empty positional argument, the last passphrase and the last mapping of a key count |
| RestoreGrammar.AddMappingMeans | cmd/astonish/platform_restore.go:141-178 | a mapping is taken exactly when the sides of its first colon have the flag's shape |
| RestoreGrammar.ValidatedExactlyWhen | cmd/astonish/platform_restore.go:84-89 | after validation exactly the sentences with one of the two modes are left |
| RunArgs.SplitArgs | cmd/astonish/agents.go:96-126 | the loop with its skip flag is the fold that the next rows are about |
| RunArgs.ExpectationsAgree | cmd/astonish/agents.go:109-117 | the splitter expects a value after a flag exactly when the flag parser takes one |
| RunArgs.NameAnywhere | cmd/astonish/agents.go:96-126 | after anything the flag parser consumes, the next positional argument is the agent name and the flags pass unchanged |
| RunArgs.NamePositionIsFree | cmd/astonish/agents.go:96-130 | wherever the name stands among the flags the same settings come out |
| RunArgs.DropsExactlyWhen | cmd/astonish/agents.go:102-126 | an argument is dropped exactly when it is empty, no value is due and no name has been seen |
| RunArgs.SplitConserves | cmd/astonish/agents.go:96-126 | on every list each value comes out among flags and name as often as it went in, dropped empty arguments aside |
| RunArgs.NothingLostExactlyWhen | cmd/astonish/agents.go:96-126 | the split keeps all arguments exactly when every empty one is a flag's value or follows the name |
| RunArgs.EmptyArguments | cmd/astonish/agents.go:119-121 | an empty argument before the name disappears; after a flag that takes a value it stays |
| RunArgs.ParamWaitsInVain | cmd/astonish/agents.go:109-117 | the splitter waits for the value of a flag the parser does not define |

## Left out

- SandboxAuditProperties.ConvergesExactlyWhenReclaimable: the rows' ages are compared with one clock value, while the code reads the clock once per row.
- SandboxAudit.Storage.ReclaimDirs: names with quotes, newlines or backslashes, which the listing and the removal script would quote or split, are not modelled; names that start with a dot are never listed.
- ChildSessions.RenderChildSessions: requires that no renderable session leads back to the root, because on such a cycle the original recursion has no end; the reads of transcripts are a fixed table during the walk.
- SessionTraceProperties.TraceConservesModelText: speaks of the text before truncation; truncation and formatting of arguments, results and times are not modelled.
- SessionTree.RepairTargets: whether listing fails is fixed per session, while the original could fail at random.
- TranscriptRepair.Disk.FreshBackup: a stat that fails for another reason than a missing file counts as a free name in the original; here only missing files do.
- SessionVault.SessionVault.CredentialStore: stat and load are instants of one history; the mutex is the sequencing of calls.
- NodeServer.Server.Serve: the scanner's 10 MB line limit and the ready message are not modelled.
- BulkCreate.OrgA2AAgentCreateBulk.Mutate: a hook edits the builder's own mutation; a hook that passes on a different mutation object, or one of another type, is not modelled; nor is one whose number of calls depends on what they return.
- FlowTurn.RunFlow: spinners, error and debug lines and the prompt's split into title and description only print.
- UpdateCheck.SuggestionMeansPrecedence: versions with build metadata are not among the well-formed ones.
- DistChoice.PickedBySuggestion: compares versions whose components fit in 63 bits.
- HookChain.WithHooks: models which steps run; the returned value, the error and the rejection of a value or mutation of another type are not modelled.
- Provisioning.PlatformStore.Setup: each provisioning call is one step (its directories and schema together); identifiers made up by a run are assumed new; a duplicate e-mail or slug, which the unique indexes exclude, would be an error instead of the first row.
- Provisioning.PlatformStore.Setup: the master key file, which every completed run overwrites, and the generated token secret in the configuration are not part of the store.
- ProviderSecrets.SaveProvider: encoding of the configuration file, encryption, and the secrets the settings store injects while loading are not modelled.
- RunArgs.NamePositionIsFree: value syntax (numbers, booleans, key=value parameters) is not modelled.
- RestoreArgs.Parse: the error texts are reduced to their kinds.
- Interactive forms, tables, styling, usage text: output only.
- Kubernetes, Docker, SQL, HTTP and file access: parameters with stated failure modes.
- The other generated ent builders: repetitions of the one modelled.
- Backup, token and drill commands, tap handling, channel setup, daemon commands: flat branching.
- The numeric formatting of sizes and durations, and the eight-character display slice of identifiers.
