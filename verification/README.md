# seapath-webui: verified model

This project models the parts of seapath-webui that hold state other people rely on, and proves what they
keep. Every statement is checked by the Dafny verifier; `dafny verify dfyconfig.toml` checks all of it.

## What is modelled

**The run lifecycle, as a protocol that can crash.** `RunStore.dfy` is the store: the lock file, one directory
a run, the records and event logs, the listing cut at a limit, and recovery. `RunService.dfy` is the launch,
the run thread, the cancel set and the replaying adapter, in the order one thread does them. `RunProtocol.dfy`
puts the same disk under any interleaving: a launch picks its id, creates the lock file, writes it, creates
the record, saves RUNNING; its thread appends events and saves; the terminal save, the two halves of the
release, cancels in two halves, failing writes, saves and unlinks, crashes at any point (with a torn log line)
and the steps of a restart. `RunSafety.dfy` proves the invariants of every execution, `RunLifecycle.dfy` what
they mean for one run, `RunRecovery.dfy` what a restart repairs, `RunLeftover.dfy` where a lock comes from
that no restart clears, `RunOrder.dfy` and `RunOvertaken.dfy` when a restart misses a run, `RunRefinement.dfy`
that the service's own code path, faults and cancels included, is an execution of the protocol, and
`EventStream.dfy` what a client of the event stream receives beside all of it. `Progress.dfy` is the fold of
Ansible's events and the reduction sent to the browser.

**The inventory compiler pair and its store.** `InventoryModel.dfy` holds the model and the YAML value tree
(dictionaries are ordered), `Renderer.dfy` and `Parser.dfy` the two directions, `RoundTrip.dfy` and
`NormalForm.dfy` the round trip, the normal form and what a rewrite keeps. `Validation.dfy` is the rule set,
`ValidationRules.dfy` each rule of it by itself, `ParserMeaning.dfy` what a document means to the parser,
`Discovery.dfy` the proposed isolated set and the seed, `InventoryService.dfy` the repository with its check
of the head.

**The kernel's CPU lists and the CPU busy rate.** `CpuList.dfy` is the parser and the printer character by
character, `CpuTimes.dfy` the reader of /proc/stat.

**The shared `authorized_keys` file.** `AuthorizedKeys.dfy` edits whole lines of a text, `TrustService.dfy`
is the self relation and any sequence of edits. `Text.dfy` holds the string functions both rest on,
`Sorting.dfy` is `sorted(set(...))`, `Sequences.dfy` holds facts about concatenation.

Code that changes state is modelled as classes and loops (the store, the service, the run thread, the
replaying adapter, the progress object, the stream reader, the busy reader, the keys file, the trust service,
the repository, the renderer's and the parser's and the validator's loops); each method is tied to a
function, and the lemmas are about that function.

## Where the code differs from what is said about it

- `reconcile` unlinks the lock only when it recovered a record, so a lock that exists with no unfinished
  record survives every restart (`RunRecovery.LockSurvives`). Such a lock is held by a launch whose record is
  not visible yet or by a run after its terminal save, belongs to a recovery between its save and its unlink,
  or was abandoned earlier: by a crash in one of these three windows, by an id that could not be written into
  the lock file, or by an unlink that raised. The protocol has no other way (`RunLeftover.SurvivalWindows`),
  the service never clears an abandoned lock again (`RunLeftover.AbandonedForEver`), and a full disk is enough
  to get one, with no crash at all (`RunLeftover.FailedWriteLocksForEver`).
- The `finally` of a run thread can itself raise. A full disk then leaves the run marked RUNNING and the lock
  held while the service goes on, until the next restart (`RunRefinement.FullDiskStrandsARun`).
- A run id is chosen before the lock is taken, so a launch can be overtaken. Recovery looks at the 1000 newest
  records only; `RunOvertaken.OvertakenRunIsMissed` is an execution in which it misses a pending run and the
  node stays locked, `RunOrder.MissedExactly` the exact condition, and `RunOrder.OrderlyFromStart` the case in
  which it never happens.
- The stream checks `finished` after its pass, so a connection can end without the last events
  (`EventStream.EventBetweenPassAndVerdictIsMissed`); one more connection gets them
  (`EventStream.OneMorePassCompletes`).
- The model of the inventory survives a round trip only when it is canonical (`NormalForm.RoundTripExactly`),
  and a rewritten file is stable only with uniform roles (`NormalForm.RewriteIsStable`).
- The check against a stale write is skipped for a caller that read no head
  (`InventoryService.FirstCommitIsUnprotected`).
- The state shows the working file under the hash of the head, and the check of a save looks at the head only.
  A hand edit made after an operator's read is overwritten by that operator's save and is in no commit, and a
  save that git refuses overwrites it too (`InventoryService.HandEditIsOverwritten`). Without hand edits a
  file that is the head's stays so (`InventoryService.ScheduleKeepsClean`), and whether it still is tells exactly
  whether a save replaces what its author saw (`InventoryService.SaveReplacesWhatWasSeen`); the commit does
  not look.
- `ensure_self_trust` is called idempotent. It is exactly for a host name without white space, as long as no
  word of it carries the service's prefix (`TrustService.SelfTrustIsIdempotent`); with white space each start
  leaves lines behind in the file (`TrustService.StartsAccumulateExactly`) and the relation is never shown as
  installed (`TrustService.SelfTrustShown`). The site's own lines survive all the same
  (`TrustService.SiteLinesSurvive`).
- The parser lends the group's `isolcpus` to hosts outside the group, and a rewrite moves it back to one
  group: `NormalForm.RewriteKeepsIsolcpusExactly` says for which files every host keeps its isolated set.
- The host name pattern accepts one trailing newline, because of its `$`; the model keeps that.

## Model

| member | source | states |
|---|---|---|
| RunStore.RunStore.Acquire | app/runs/store.py:141-153 | exclusive: taken only when there is no lock file; a refusal names the holder and changes nothing; an id that cannot be written leaves an empty lock |
| RunStore.RunStore.Release | app/runs/store.py:155-163 | frees the lock that names this run, or that names none, and no other |
| RunStore.RunStore.Create | app/runs/store.py:59-68 | the record becomes visible in its own directory beside the frozen inventory and an untouched log |
| RunStore.RunStore.Save | app/runs/store.py:70-74 | replaces one record and nothing else |
| RunStore.RunStore.List | app/runs/store.py:84-95 | strictly newest first, and a run is listed exactly when it has a record and fewer than `limit` records are newer |
| RunStore.PositionCountsNewer | app/runs/store.py:94-95 | in the sorted listing a run's position is the number of newer records, so truncation is the cut by count |
| RunStore.RunStore.AppendEvent | app/runs/store.py:105-111 | one whole line at the end of that run's log |
| RunStore.RunStore.Events | app/runs/store.py:117-131 | the whole lines from a line number on, in order; a torn line is passed over |
| RunStore.RunStore.Reconcile | app/runs/store.py:167-191 | exactly the unfinished runs within the 1000 newest become INTERRUPTED, all else stays, and the lock goes only if there was one |
| RunSafety.StepKeepsExclusive | app/runs/store.py:141-157 | no step lets two runs be between acquire and release |
| RunSafety.StepKeepsLocksFit | app/runs/store.py:141-163 | no step breaks the agreement between the lock file's content and the run that holds it |
| RunSafety.StepKeepsNamed | app/runs/service.py:202-215 | every step keeps each unfinished record named by the lock |
| RunSafety.StepKeepsBoot | app/runs/store.py:176-190 | while recovery runs, what it still has to save is unfinished, and after its first save nothing is |
| RunSafety.StepKeepsTraces | app/runs/service.py:287-326 | every step keeps each run's log, record and applied events in agreement, with at most the last line torn |
| RunSafety.RunsKeepSafe | app/runs/service.py:146-328 | all of these hold in every state of every execution with any number of launches, cancels, events, crashes and restarts |
| RunLifecycle.MutualExclusion | app/runs/store.py:141-163 | from an empty disk: one run between acquire and release, the lock names it once written, an unfinished record is unique and named by the lock, a free lock means all records are finished |
| RunLifecycle.ReleaseOwnsTheLock | app/runs/store.py:155-163 | a release always finds its own id in the lock: the branch for a lock naming no one is never taken |
| RunLifecycle.StepEvolves | app/runs/service.py:213-326 | a record appears PENDING, then RUNNING, then one terminal state, or goes from PENDING to INTERRUPTED; a finished run's record and log never change; logs only grow |
| RunLifecycle.FinishedForEver | app/runs/models.py:73-80 | over any execution a finished run keeps its record and its log |
| RunLifecycle.RecordsAccumulate | app/runs/store.py:105-111 | over any execution no record disappears and every log extends the earlier one |
| RunLifecycle.LaunchedAsAsked | app/runs/store.py:59-68 | whatever happens after its creation, a run's record names the playbook, the mode and the operator it was launched with, and the inventory beside it is the one frozen then |
| RunLifecycle.ReturnedRunKeepsItsCode | app/runs/service.py:314-326 | a run its adapter ends by returning keeps for ever that adapter's return code, for every terminal state, and the progress of every event applied |
| RunLifecycle.RaisedRunFails | app/runs/service.py:318-326 | a run ended by an exception keeps for ever FAILED, the return code it had, and the progress of every event applied |
| RunLifecycle.EndOfRun | app/runs/service.py:330-342 | INTERRUPTED exactly for a return with no cancel, no error and no recap |
| RunLifecycle.TerminalStates | app/runs/service.py:314-325 | in every execution SUCCESS implies a recap among the applied events and return code 0, and under the replaying adapter CANCELLED implies a cancel request |
| RunLifecycle.LogReplaysToRecord | app/runs/service.py:289-295 | in every reachable state the log on disk replays to the record's progress, exactly for SUCCESS and CANCELLED, at most the last event apart otherwise, and on which side |
| RunRecovery.RestartIsReconcile | app/runs/store.py:167-191 | the steps of a completed restart make exactly the disk the store's recovery computes |
| RunRecovery.RecoveryOutcome | app/runs/store.py:176-190 | recovery changes exactly the unfinished runs hidden by fewer than 1000 newer records, touches no log, and frees the lock exactly when it was free or a run was recovered |
| RunRecovery.CrashWhileGoing | app/runs/store.py:167-191 | a crash between the first visible record and the terminal save, then recovery: that run INTERRUPTED, every other record as it was, the lock free |
| RunRecovery.LockSurvives | app/runs/store.py:189-190 | over all crash points the lock survives recovery exactly when it existed with no unfinished record |
| RunLeftover.AbandonedExactly | app/runs/store.py:141-191 | a step leaves a lock that nothing will clear exactly when there was one, or the id could not be written, or the unlink raised, or the machine went down in one of the three windows |
| RunLeftover.SurvivalWindows | app/runs/store.py:189-190 | in every execution, a lock that a crash and a restart would leave is in one of the three windows or was abandoned by an earlier step of that execution, and in no other case |
| RunLeftover.AbandonedForEver | app/runs/store.py:145-151 | an abandoned lock stays over any execution, restarts included, and every launch is refused |
| RunLeftover.FailedWriteLocksForEver | app/runs/store.py:152-153 | an execution without a crash that abandons the lock, empty |
| RunOrder.OrderlyFromStart | app/runs/store.py:176 | when launches take the lock in the order of their ids, the cut at 1000 never hides an unfinished run |
| RunOrder.MissedExactly | app/runs/store.py:176-191 | a restart leaves a run unfinished exactly when 1000 newer records hide it, and then every launch is refused |
| RunOvertaken.OvertakenRunIsMissed | app/runs/service.py:188-205 | an execution in which a launch is overtaken 1000 times and recovery misses it |
| RunRefinement.ServiceRunIsAnExecution | app/runs/service.py:280-328 | a run launched and executed by the service with the replaying adapter, cancelled or not, whatever raises in it, in its terminal save or in its release, ends on the disk of an execution of the protocol, in which it was asked to stop exactly when it ends cancelled; a request is forgotten only by a run that released its lock |
| RunRefinement.LaunchIsAnExecution | app/runs/service.py:187-232 | so is every launch from an idle state, whatever raises in it: the lock is free after it exactly when it was never taken or a creation that raised was undone, and an unfinished record stays exactly when a step after the creation raised |
| RunRefinement.FullDiskStrandsARun | app/runs/service.py:318-327 | an execution without a crash in which the append leaves half a line, the terminal save raises, and the service goes on with the run marked RUNNING and the lock held |
| RunService.RunService.Launch | app/runs/service.py:202-232 | refused with the holder's id and no change when locked; else the disk after the first step that raises (the unlink after a failed creation included), or locked, recorded and RUNNING |
| RunService.RunService.Cancel | app/runs/service.py:234-244 | only an unfinished run is added to the cancel set; an unknown or finished one is refused |
| RunService.RunThread.OnEvent | app/runs/service.py:289-295 | one event: the progress folded, its line appended when it has one, the record saved with that progress; or the append or the save raises |
| RunService.FakeRunAdapter.Execute | app/runs/fake.py:123-143 | the loop over the events, each after a look at the service's cancelled set, ends as specified: at the first look that finds the run there, at the first fault, or after the last event |
| RunService.RunService.Execute | app/runs/service.py:280-328 | the log gets exactly the summaries of the events handled, the record its final state and the fold of the events applied, the lock is released, the cancel request forgotten; when the terminal save raises the record stays as its last save left it, and then, or when the unlink raises, the lock and the request stay |
| RunService.ReplayedEnd | app/runs/fake.py:135-143 | a replayed run ends CANCELLED exactly when it was asked to before one of its events and nothing raised before, FAILED when something raised, else by recap and return code; it keeps the adapter's return code whatever its state, and the progress of all events or of those before the first request |
| Progress.RunProgress.ApplyEvent | app/runs/progress.py:28-54 | the mutated object is the fold of the events |
| Progress.RunProgress.ApplyStats | app/runs/progress.py:57-66 | the five nested loops together are one recap |
| Progress.FieldsMakeRecap | app/runs/progress.py:57-72 | setting the fields in turn, creating hosts on the way, sets each listed counter of each host once and keeps the rest |
| Progress.ReplayRebuildsProgress | app/runs/progress.py:75-120 | folding the reduced stream rebuilds exactly the progress folded from the raw events |
| Progress.RecapFlag | app/runs/progress.py:33-52 | the recap flag holds exactly when a recap occurred; `tasks_started` counts the task starts |
| Progress.CountersConserve | app/runs/progress.py:38-47 | until the first recap a host's counters add up to the result events naming it, and a host is known exactly when one did |
| Progress.CountersExact | app/runs/progress.py:19-47 | until the first recap each counter of a host is the number of its results of that kind (an ok one that changed counts as changed, a failed and an async failed one as failed), and its last task that of its last result |
| Progress.PlayAndTask | app/runs/progress.py:33-37 | over any events the play and the task are the last ones named |
| Progress.LineTellsEvent | app/runs/progress.py:75-104 | each line tells the event it was made of, a result its host, task, counter, and why exactly when it failed; every other event makes no line |
| Progress.MessageExplains | app/runs/progress.py:107-113 | a message is the first of the three texts that says something, whole up to 2000 characters, and there is none exactly when none does |
| Progress.RecapSetsListed | app/runs/progress.py:48-66 | the same for one host of a recap event |
| EventStream.StreamReader.Scan | app/api/v1/runs.py:129-134 | a pass sends every readable event from the index on, each under its number, and advances the index by as many |
| EventStream.ReadableIsSlice | app/runs/store.py:117-131 | on a log whose last line may be torn, a pass reads exactly the whole lines from the offset to the end |
| EventStream.StreamIsExact | app/api/v1/runs.py:129-144 | after any schedule of protocol steps, passes and reconnections the client holds the contiguous slice from its offset, each line under its number; it resumes right after it; a verdict is the state the run keeps; a pass that found the run finished reached the end |
| EventStream.StreamRebuildsRecord | app/api/v1/runs.py:129-144 | over any schedule, a client from line 0 whose last pass found the run finished rebuilds exactly the record's progress for SUCCESS and CANCELLED, and otherwise misses at most the last event, on the side told |
| EventStream.VerdictReachesEnd | app/api/v1/runs.py:132-141 | at a verdict, the end of the log was reached exactly when no line followed the last pass |
| EventStream.EventBetweenPassAndVerdictIsMissed | app/api/v1/runs.py:132-141 | an event between the pass and the check ends a connection that never sent it |
| EventStream.OneMorePassCompletes | app/api/v1/runs.py:113-144 | reconnecting after a verdict for one pass reaches the end of the log |
| Renderer.HostVars | app/inventory/renderer.py:112-147 | the dictionary filled in place is the modelled slots, overridden by the extra, overridden by the fixed variables, in order |
| Renderer.Render | app/inventory/renderer.py:70-93 | the tree of a standalone inventory; a cluster is refused |
| RoundTrip.RenderedGroups | app/inventory/renderer.py:70-84 | every standalone file lists all hosts in order under `all` and `standalone_machine`, and under `hypervisors` exactly the hypervisors in order, or all hosts when there is none |
| RoundTrip.HostWritesInOrder | app/inventory/renderer.py:52-147 | a rendered host line by line: the modelled variables that are set and not empty, in order, the site's own as they are, and the fixed ones with their values |
| Renderer.GroupWithIsolcpus | app/inventory/renderer.py:154-165 | the group carries `isolcpus` exactly when the hosts name one set between them |
| Parser.Parse | app/inventory/parser.py:44-67 | accepted, refused, or failing on the first host it cannot read, with hosts in file order |
| ParserMeaning.ParseAnswers | app/inventory/parser.py:52-88 | a document is refused exactly when it lists no host under `all`; an accepted one is a cluster exactly when it lists a host under `cluster_machines`, has the hosts of `all` in order, and an observer exactly where the name is under `observers` |
| ParserMeaning.ClusterHasNoRendering | app/inventory/renderer.py:74-84 | an accepted document has no rendering exactly when it lists a cluster machine |
| ParserMeaning.HostFailsExactly | app/inventory/parser.py:62-101 | the hosts the parser fails on: neither empty nor a mapping, a subnet or a PTP domain out of range or overflowing, servers that are no collection |
| ParserMeaning.ConversionsAgree | app/inventory/parser.py:89-138 | `int` reads back what `str` writes of a number, and what counts as empty is exactly `None`, false, zero and the empty string and collections |
| ParserMeaning.ListsOfTexts | app/inventory/parser.py:122-127 | a list of servers is absent, one text, a list of values as text, or the keys of a mapping; anything else fails |
| RoundTrip.LayersApart | app/inventory/renderer.py:141-147 | with clean extra variables the three layers are concatenated, and the parser's filter recovers the extra exactly |
| RoundTrip.HostVarsSay | app/inventory/renderer.py:112-147 | what a rendered host says for every name: fixed, site's or modelled |
| RoundTrip.NodeReads | app/inventory/parser.py:70-101 | reading a rendered host gives the node with empty strings dropped and the fleet's isolated set |
| RoundTrip.ParseOfRender | app/inventory/parser.py:44-67 | reading a rendered inventory gives its normal form, for any number of hosts |
| NormalForm.CanonicalReadsBack | app/inventory/renderer.py:70-165 | a canonical inventory is read back identical, order included |
| NormalForm.RoundTripExactly | app/inventory/parser.py:44-138 | `parse(render(x)) == x` if and only if x is canonical |
| NormalForm.RewriteIsStable | app/inventory/renderer.py:154-165 | for an accepted standalone document a second parse and render changes nothing if and only if the roles are uniform |
| NormalForm.RewritePreserves | app/inventory/parser.py:74-81 | a rewrite keeps hosts and order, the value or absence of every variable not modelled, and writes the fixed values |
| NormalForm.RewriteOwns | app/inventory/parser.py:83-101 | a rewrite writes each modelled variable as the text, number or list that was read, drops an empty one, writes both aliases exactly with a PTP domain, and takes `isolcpus` off the host |
| NormalForm.RewriteKeepsIsolcpus | app/inventory/parser.py:56-62 | for one hypervisor host the effective isolated set is kept as a string, an empty one dropped |
| NormalForm.RewriteKeepsIsolcpusExactly | app/inventory/renderer.py:154-165 | for any number of hosts every host keeps its effective isolated set if and only if the hypervisors share one (or none), the other hosts have none, and no host is lent another |
| Validation.NetworkIsPrefix | app/inventory/validation.py:156-158 | the gateway rule holds exactly when both addresses agree on the first `subnet` bits (section 3.1 of RFC 4632) |
| Validation.ValidHost | app/inventory/validation.py:90-252 | the findings of one host contain no error exactly when the host meets the declarative rules: a host name, an address that is no loopback, a named interface, a gateway in the network, servers that are addresses, a hashed password, an isolated set without CPU 0 |
| ValidationRules.HostFindingsExactly | app/inventory/validation.py:90-297 | the findings of a host are exactly those of the rules it breaks, errors and warnings, each under its rule, level and host; when each rule is broken is said on the node |
| ValidationRules.HostnameMatches | app/inventory/validation.py:31 | the host name rule is the pattern: a first, a last, and up to 61 letters, digits and hyphens between, before at most one newline |
| ValidationRules.DnsFindingsCount | app/inventory/validation.py:172-182 | one finding for each server that is no address |
| ValidationRules.FindingsExactly | app/inventory/validation.py:60-87 | the findings of an inventory are those of its shape, of the rules its hosts break, and of each host whose address an earlier one has, and no other |
| Validation.ValidateAcrossHosts | app/inventory/validation.py:300-319 | a finding for each host whose address an earlier one has |
| Validation.DuplicatesCount | app/inventory/validation.py:300-319 | the duplicate findings number hosts minus distinct addresses |
| Validation.ValidIsolcpus | app/inventory/validation.py:255-297 | no error exactly when the text is empty, or denotes some CPU and not CPU 0 |
| Validation.ValidExactly | app/inventory/validation.py:52-87 | an inventory is valid exactly when it satisfies one declarative predicate over all its hosts |
| Discovery.ProposalIsRefusedExactly | app/inventory/discovery.py:151-163 | a proposed isolated set raises an error exactly when the observed set contains CPU 0, never from the topology |
| Discovery.ProposalDenotes | app/inventory/discovery.py:151-163 | a proposal denotes exactly the observed CPUs, or all but the first four of those online, and is absent exactly when there is neither |
| Discovery.SeedIsReadBack | app/inventory/discovery.py:96-148 | the seed a node writes about itself is one standalone hypervisor with what was observed and nothing else, and is read back identical |
| InventoryService.InventoryRepository.Commit | app/inventory/repository.py:145-183 | stale, unchanged, refused by git, or one commit on the current head with the file rewritten; a file that differs in layout only is rewritten |
| InventoryService.CommitMeans | app/inventory/repository.py:158-183 | a stale commit touches nothing; every other leaves the file as the candidate's text and adds one commit, by its author on the head, exactly when the text was another and the head does not hold it |
| InventoryService.InventoryService.State | app/inventory/service.py:60-77 | the inventory read from the file, with the head and its findings, or why there is none |
| InventoryService.StateTells | app/inventory/service.py:60-77 | nothing is seeded exactly where the file is missing or blank, an error exactly for a file that is no document or lists no host, an inventory exactly where the parser accepts it |
| InventoryService.InventoryService.Save | app/inventory/service.py:102-122 | an invalid candidate changes nothing; a valid one is rendered and handed to the repository |
| InventoryService.SaveMeans | app/inventory/service.py:110-122 | a save is refused exactly for an invalid candidate, with its findings, and reaches the repository exactly for a valid standalone one whose message can be made |
| InventoryService.ClusterIsNeverRewritten | app/inventory/renderer.py:83-84 | a file that lists a cluster machine is shown as a cluster, and saving what is shown never reaches the repository |
| InventoryService.InventoryService.EnsureSeed | app/inventory/service.py:126-150 | writes only where the file says nothing; fails where git has nothing to commit |
| InventoryService.SeedIsHonest | app/inventory/service.py:134-150 | a seed reports a write exactly when there is one more commit, and changes only a file that said nothing |
| InventoryService.SavedIsReadBack | app/inventory/service.py:102-122 | after a successful save of a canonical candidate the state is that inventory, the current head and the same findings |
| InventoryService.SecondSaveIsUnchanged | app/inventory/repository.py:166-167 | after any successful save, saving what the state shows is valid, writes nothing and adds no commit |
| InventoryService.NoLostCommit | app/inventory/repository.py:158-164 | over any schedule of reads, saves, hand edits and seeds each commit whose author read a head sits on exactly that head, every commit but a seed holds a valid inventory, the history only grows |
| InventoryService.RewritesExactly | app/inventory/repository.py:166-180 | the file changes without a commit only by a hand edit, or by a save or a seed that git refuses |
| InventoryService.ScheduleKeepsClean | app/inventory/repository.py:158-183 | over any schedule without a hand edit, a working file that is the head's stays so, and nothing is written that is not committed |
| InventoryService.SaveReplacesWhatWasSeen | app/inventory/repository.py:158-169 | whatever happens between a read of a head and a save that passes the check, no commit was made; where the file was the head's and nobody edited it by hand (or nothing rewrote it) the repository is the one its author saw; and for a file that was the head's when read, the save replaces what its author saw if and only if the file still is the head's |
| InventoryService.HandEditIsOverwritten | app/inventory/service.py:60-77 | a hand edit between a read and a save is overwritten and in no commit, also when git refuses the save |
| InventoryService.UnseenExactly | app/inventory/repository.py:160 | a commit sits on what its author saw exactly when the author saw a head or there still was none |
| InventoryService.FirstCommitIsUnprotected | app/inventory/repository.py:158-183 | two operators who both read no head: the second replaces the first's commit unseen |
| CpuList.ParseCpuList | app/hosts/local.py:474-492 | the loop, the set and the sort are the ascending list of everything the chunks list |
| CpuList.ParseMeaning | app/hosts/local.py:474-492 | the result is strictly ascending, all natural, and holds exactly the CPUs some chunk denotes |
| CpuList.AsCpuList | app/inventory/discovery.py:166-181 | the loop prints the maximal runs of consecutive CPUs |
| CpuList.RunsCorrect | app/inventory/discovery.py:168-176 | the runs cover exactly the list, and neither touch nor overlap |
| CpuList.RoundTrip | app/inventory/discovery.py:166-181 | printing then parsing gives a list back exactly when it is strictly ascending and natural |
| CpuList.PrintIsMinimal | app/inventory/discovery.py:166-181 | no text for the same CPUs has fewer non-empty chunks than the printer emits |
| CpuList.DashExactly | app/inventory/discovery.py:180-181 | a printed chunk has a dash exactly when it stands for several CPUs |
| CpuList.PartsWithoutNumberDoNotMatter | app/hosts/local.py:479-491 | a part that is blank or no number and no range changes nothing, wherever it stands |
| CpuList.FlagListsNothing | app/hosts/local.py:489-491 | a part that begins with a letter, such as a flag of the kernel's, lists nothing |
| CpuList.ChunkReads | app/hosts/local.py:483-491 | a part lists one CPU, or the CPUs between the numbers before and behind its first dash, and nothing when one of them is no number |
| CpuTimes.CpuReader.BusyPercent | app/hosts/local.py:223-258 | the report against the previous poll, which the poll replaces; an unreadable file changes nothing |
| CpuTimes.CpuReader.ReadStat | app/hosts/local.py:231-244 | the counters of each CPU line that parses, or a failure on one with fewer than four |
| CpuTimes.RowReadsBack | app/hosts/local.py:233-243 | a printed CPU line reads back as its number and counters, or as too short; the aggregate line and any other are passed over |
| CpuTimes.ReadingExactly | app/hosts/local.py:232-244 | a reading fails exactly when some line is too short, and otherwise gives each CPU the counters of its last line |
| CpuTimes.ReportExactly | app/hosts/local.py:246-256 | a CPU is reported exactly when it was seen before and its counters moved on, with the share of the time that was neither idle nor waiting |
| CpuTimes.BusyIsTheRest | app/hosts/local.py:242-243 | busy time is the sum of all counters but the fourth and the fifth |
| CpuTimes.ReportIsAPercentage | app/hosts/local.py:246-256 | with counters that only grow a report names only CPUs seen before and lies in [0, 100] before rounding |
| CpuTimes.ReportsTelescope | app/hosts/local.py:246-257 | for a CPU present throughout, the reports stand for exactly the busy time from its first to its last reading |
| AuthorizedKeys.AuthorizedKeysFile.Install | app/trust/authorized_keys.py:64-92 | the kept lines and the new one, written only when that changes the lines; no account, no change |
| AuthorizedKeys.AuthorizedKeysFile.Remove | app/trust/authorized_keys.py:95-102 | the lines without that comment, written only when one had it |
| AuthorizedKeys.AuthorizedKeysFile.Installed | app/trust/authorized_keys.py:105-111 | the comments of the service's lines, in file order |
| AuthorizedKeys.CommentsInMembers | app/trust/authorized_keys.py:105-111 | a comment is listed exactly when some line carries it |
| AuthorizedKeys.CommentOf | app/trust/authorized_keys.py:114-126 | only a whole last field carrying the prefix is ever a comment of ours |
| AuthorizedKeys.OwnedExactly | app/trust/authorized_keys.py:121-126 | a line is the service's exactly when its first word does not start with `#` and its last starts with the prefix |
| AuthorizedKeys.CommentedOutIsForeign | app/trust/authorized_keys.py:121-123 | a line commented out is never the service's |
| AuthorizedKeys.CommentOfRender | app/trust/authorized_keys.py:35-52 | a printed line gives its comment back exactly when the comment has the prefix and no white space |
| AuthorizedKeys.KeyBlobOfRender | app/trust/authorized_keys.py:129-138 | a printed line gives a two-field key back |
| AuthorizedKeys.OptionsOfRender | app/trust/authorized_keys.py:48-52 | read back outside quotes, a printed line always restricts its key, has no option but `restrict` and `from`, and `from` lists exactly the key's addresses, absent exactly when there is none |
| Text.LinesOfUnlines | app/trust/authorized_keys.py:155-167 | the lines written are the lines read |
| Text.UnlinesOfLines | app/trust/authorized_keys.py:141-167 | rewriting a file's lines changes nothing exactly when it is newline-normalised |
| Text.ParseIntTolerates | app/hosts/local.py:484-488 | `int` reads over white space, a plus sign and an underscore between digits |
| Text.ParseIntOfIntText | app/inventory/parser.py:134-138 | `int` reads back every number `str` writes |
| TrustService.RestrictionIsCanonical | app/trust/service.py:137-145 | two address lists give the same restriction exactly when they differ at most in order, duplicates, empty and loopback entries |
| TrustService.SelfLineOptions | app/trust/service.py:137-145 | the self line restricts its key and admits it from the two loopback addresses and the non-empty addresses given, and from nowhere else |
| TrustService.InstalledLineIsRestricted | app/trust/authorized_keys.py:88-92 | so does the line that provisioning leaves at the end of the file |
| TrustService.SelfLineOfNode1 | app/trust/authorized_keys.py:35-52 | the line of one node, in full |
| TrustService.TrustService.EnsureSelfTrust | app/trust/service.py:65-104 | one key pair for ever, and the file as the install of its line leaves it |
| TrustService.TrustService.Revoke | app/trust/service.py:130-134 | the file without the lines of that comment |
| TrustService.RemoveKeepsOthers | app/trust/authorized_keys.py:95-102 | a removal leaves exactly the lines that do not carry that comment |
| TrustService.TrustService.SelfTrusted | app/trust/service.py:106-128 | read from the file, not remembered |
| TrustService.ForeignLinesSurvive | app/trust/authorized_keys.py:64-102 | over any sequence of edits with keys that are recognised again, the lines not owned keep their content and order and there are no others |
| TrustService.SiteLinesSurvive | app/trust/authorized_keys.py:64-102 | over any sequence of edits with any keys, comments and addresses, the lines not owned at the start are the first of those not owned at the end, in content and order |
| TrustService.OneOwnedLine | app/trust/service.py:65-104 | with one key, renames included, there is at most one owned line, and after a provisioning exactly the one it wrote |
| TrustService.InstallIsIdempotent | app/trust/authorized_keys.py:88-92 | a second install finds nothing to change |
| TrustService.RemoveUndoesInstall | app/trust/authorized_keys.py:95-102 | removing what was installed restores the file byte for byte exactly when it was newline-normalised and no owned line had that comment or key |
| TrustService.SelfTrustShown | app/trust/service.py:106-128 | the view shows the relation after provisioning exactly when the host name has no white space |
| TrustService.SelfTrustIsIdempotent | app/trust/service.py:65-86 | provisioning twice leaves the lines of provisioning once exactly for a host name without white space, when no word of the host name carries the prefix; and the exact condition for every host name, key and address list |
| TrustService.StartsAccumulateExactly | app/trust/service.py:65-86 | on the file, read again at each start: each start leaves behind what the next does not recognise of its lines, which is nothing exactly for a host name without white space, and the whole line for one with white space and no line break; a second start leaves the file alone exactly for a host name without white space, line breaks included |

## Left out

- YAML, JSON and pydantic text: dumping then loading is the identity on value trees, and a torn line does not parse.
- Keys of YAML dictionaries that are no strings, and a host written as a list of pairs: the first do not occur, the second counts as a failure.
- `str` and `int` of collections, floats and dates in a document are a parameter, over which every result holds.
- `ipaddress.ip_address` is a parameter; an address is its bits and whether it is loopback.
- Python's `int` on digits outside ASCII, and its limit of 4300 digits, in CPU lists and /proc/stat.
- Text is what `read_text` returns, so a carriage return has already become a newline.
- Git itself, `revert`, `diff` and `export`; a commit is its place in a growing history, and one call of `commit` is one atomic step.
- The AnsibleRunner adapter: the protocol takes any events and any outcome or exception in its place.
- The catalogue, `playbooks`, the preconditions and the accepted variables of a launch: static data and filters.
- Run ids are fresh and increase in the order they are chosen; one pass over a log reads a snapshot.
- Timestamps, the command line, operator messages, audit lines, file modes and owners.
- The rounding of a busy rate to one decimal.
- Cluster rendering, which raises NotImplementedError.
- Authentication, sessions, TLS, key generation, GRUB hashing, `known_hosts`, the rest of the host reader, the routes other than the event stream, the user interface.
- RunProtocol.Next: a temporary file left by a crash inside a save is not on the model's disk, as nothing reads it.
- CpuTimes.CpuReader.BusyPercent: does not round, because rounding is not the point.
- Events that are not shaped as Ansible's: a field the fold reads has its type.
- Discovery's readings of interfaces, disks and CPUs: what it observed is a parameter of the seed.
- Keys of a dictionary are encoded by name: a reserved word has its own constructor and no other spelling.
