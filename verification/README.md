# Verified model of yafe

yafe runs flows (YAML files with shell steps) from a file-backed job queue, by hand or on
schedules. This project models the parts where it can go wrong in ways that are hard to test,
and proves what they guarantee and where the guarantees end. `dafny verify dfyconfig.toml`
checks everything.

**The queue as a protocol.** `QueueProtocol` is a state machine over the file system: any number
of enqueuers, workers, GetJob scans, deletions and cleanups interleave, every system call is a
step, and processes crash or fail between any two steps. `QueueInvariant` proves one invariant
over every step, `QueueTheorems` draws the guarantees from it (at most one hand-out, no job
lost, scans that never miss, nothing left in running), and `QueueRefinement` connects the
machine's uninterrupted claims, enqueues and status changes to the methods of `FileQueue` and
exhibits runs where the assumptions fail.

**The queue undisturbed.** `FileQueue` and `Worker` are classes whose methods are the code's, loop
by loop, proved against what one call does to the four directories. `Filename` and `QueueOrder`
settle when "the timestamp prefix ensures FIFO" is true.

**The flow language.** `Template` gives a deterministic matcher for the two regular expressions,
`Resolution` proves that repeated first-occurrence replacement is simultaneous substitution and
for which values it is not, `Secrets` treats loading, scoping and masking, `OutputFile` the
key=value files, `Flow` the validator, `Engine` the interpreter with its managers, and
`FlowSafety` proves that validated flows do not go wrong, whatever their commands do.

**The scheduler.** `Scheduler` proves that schedules on disk, the `entries` map and the cron
engine stay coherent over every sequence of operations, and exactly which calls break that;
`Registry` and `Rename` treat the flow files and renaming a flow under its schedules.

**The tool cache.** `Tools` proves that a cache hit is the declared binary, and exactly when a
failed download spoils that.

`Job`, `Strings` and `Listing` hold shared definitions.

Where code and comment disagree the code is followed: `GetJob` compares a wrapped error with
`os.IsNotExist` (`internal/queue/queue.go:265`), so that it returns a read error where its
comment says that it continues with the next directory.

## Model

| member | source | states |
|---|---|---|
| QueueInvariant.StepPreserves | internal/queue/queue.go:150-190 | every system call of every process keeps the protocol's invariant, crashes and failing calls included, with the one exception of a claim whose removal of the pending file fails |
| QueueInvariant.Invariant | internal/queue/queue.go:114-383 | the invariant holds at every point of every interleaving in which removing a claimed pending file succeeds |
| QueueTheorems.AtMostOnce | internal/queue/queue.go:150-190 | in every such interleaving no job id is handed out twice |
| QueueTheorems.OneProcessPerJob | internal/queue/queue.go:165-190 | no two processes are ever in charge of the same job at the same time |
| QueueTheorems.NoJobLost | internal/queue/queue.go:314-383 | an enqueued job that is neither deleted nor cleaned is always in one of seven sets of directories, each file a complete copy with the same id, flow, inputs and creation time |
| QueueTheorems.EnqueuedForever | internal/queue/queue.go:314-337 | what was enqueued under an id never changes |
| QueueTheorems.InferenceAgrees | internal/frontend/app/src/components/StatusTag.tsx:26-35 | in every reachable state the status inferred from a stored copy is its directory, except exactly for failed jobs without a message |
| QueueTheorems.GetJobNeverMisses | internal/queue/queue.go:241-275 | a scan interleaved with any moves answers "not found" for a job enqueued before it only if the job was removed |
| QueueTheorems.GetJobAnswers | internal/queue/queue.go:260-270 | a scan's read finds the job as its directory holds it, and fails if and only if the file has left the directory since it was listed; a job not removed then lies in a later directory, where a scan that went on would find it |
| QueueTheorems.NothingLeftRunning | internal/queue/worker.go:125-163 | outside the processing of a job, a worker that has not crashed, and whose status changes and removals succeeded, leaves none of its jobs in running: each that is not deleted or cleaned is in done or failed only |
| QueueRefinement.ClaimRefines | internal/queue/queue.go:150-190 | an uninterrupted claim of the protocol moves the same job in the same way as the undisturbed TryClaimJob |
| QueueRefinement.ClaimAlone | internal/queue/queue.go:150-190 | from any state in which the pending file is there and unlocked, the system calls of an uninterrupted claim are enabled one after the other and lead to the state ClaimRefines is about |
| QueueRefinement.EnqueueRefines | internal/queue/queue.go:314-337 | an uninterrupted enqueue of the protocol writes the file that the undisturbed Enqueue writes, under a name no directory has |
| QueueRefinement.EnqueueAlone | internal/queue/queue.go:314-337 | for an idle process and an unused id the system calls of an enqueue are enabled one after the other and lead to that state |
| QueueRefinement.MarkRefines | internal/queue/queue.go:192-209 | an uninterrupted status change of the protocol makes the move of the undisturbed MarkDone or MarkFailed, and starts with the job in running only unless it was deleted |
| QueueRefinement.MarkAlone | internal/queue/queue.go:355-383 | for a process that holds a job the system calls of a status change are enabled one after the other and lead to that state |
| QueueRefinement.FailedRemoveDuplicates | internal/queue/queue.go:377-380 | at any claim in any run, if the removal of the pending file fails the run can go on to hand the same job out twice |
| QueueRefinement.ReadErrorForLiveJob | internal/queue/queue.go:261-268 | whenever GetJob has listed an unclaimed pending job, a claim before its read makes it fail although the job is there throughout |
| Filename.IdRoundTrip | internal/queue/queue.go:249-260 | the id is read back from a job's file name if and only if the job was created in or after 1970 |
| Filename.IdInFront | internal/queue/queue.go:249-260 | the id read from an entry is what stands between its first dash and its extension |
| Filename.NameMeans | internal/queue/queue.go:310-312 | a job file's name is the decimal number of its creation time in nanoseconds, a dash, the id and .json |
| Filename.TmpIsSkipped | internal/queue/queue.go:285-294 | a temporary file is never taken for a job |
| Filename.FilenameInjective | internal/queue/queue.go:310-312 | different (creation time, id) pairs have different file names, before 1970 too |
| Filename.FilenameOrder | internal/queue/queue.go:125-128 | for timestamps of one digit count and ids of one length, string order of the names is order by (creation time, id) |
| Filename.ClockRange | internal/queue/queue.go:310-312 | all timestamps from 10^18 ns to the end of int64 have nineteen digits |
| Filename.FifoExactly | internal/queue/queue.go:125-128 | an earlier job's name sorts first if and only if its timestamp is at most the equally long prefix of the later one's |
| Filename.FifoFails | internal/queue/queue.go:125-128 | whenever the clock gains a digit, as on 9 September 2001, the job created one nanosecond earlier does not sort first |
| QueueOrder.DequeueIsFifo | internal/queue/queue.go:114-148 | an uncontended Dequeue returns a pending job that is minimal by (creation time, id) |
| QueueOrder.DequeueAgreesWithList | internal/queue/queue.go:233-236 | that job was created when the head of ListJobs(pending) was |
| FileQueue.FileQueue.constructor | internal/queue/queue.go:65-87 | a new queue is empty and consistent |
| FileQueue.FileQueue.Enqueue | internal/queue/queue.go:89-112 | a valid, known flow gets one new pending file that holds exactly the request: its id, trimmed flow, inputs and time, not started, not ended, without error and exit code; any other request, and a failing write, is refused without effect |
| FileQueue.FileQueue.TryClaimJob | internal/queue/queue.go:150-190 | a missing or locked file is skipped, a malformed one is an error, any other moves from pending to running with its start time and otherwise as it was |
| FileQueue.FileQueue.Dequeue | internal/queue/queue.go:114-148 | what DequeueExactly says; the queue stays consistent, and a claimed job's only file is then the one in running |
| FileQueue.DequeueExactly | internal/queue/queue.go:114-148 | nothing is found if and only if every job file is locked; otherwise the first unlocked one in name order is an error if malformed and else moves to running with its start time, and nothing else changes |
| FileQueue.FileQueue.MarkDone | internal/queue/queue.go:192-199 | the job's file goes from running to done with end time and exit code and otherwise as it was; if the job was held this is its only file, its inferred status is done, and the queue stays consistent |
| FileQueue.FileQueue.MarkFailed | internal/queue/queue.go:201-209 | the job's file goes from running to failed with end time, exit code and message and otherwise as it was; if the job was held this is its only file, its inferred status is failed if and only if the message is not empty, and the queue stays consistent |
| FileQueue.FileQueue.ListJobs | internal/queue/queue.go:211-239 | the readable jobs of the directory, oldest first, each as often as there are job files that hold it |
| FileQueue.FileQueue.GetJob | internal/queue/queue.go:241-275 | the first entry in status order that carries the id, or "not found" exactly if there is none |
| FileQueue.ScanOrder | internal/queue/queue.go:241-247 | the first entry is the one in pending, else in running, else in done, else in failed |
| FileQueue.CarriersAreTheJob | internal/queue/queue.go:249-260 | in a consistent queue a readable job's entry carries exactly the job's id if the job was created from 1970 on, and otherwise does not carry it |
| FileQueue.FileQueue.DeleteJob | internal/queue/queue.go:277-308 | removes one file, the first that carries the id, and the job's log, and fails exactly if there is none |
| FileQueue.DeleteUndoesEnqueue | internal/queue/queue.go:277-308 | for a fresh id the lookup finds the file Enqueue wrote, and no other, if and only if the job was created from 1970 on, and removing it restores the directories; before 1970 nothing is found |
| FileQueue.FileQueue.CleanupStatus | internal/queue/queue.go:419-458 | removes exactly the readable job files that ended before the cutoff, with their logs, and counts them |
| FileQueue.FileQueue.RunCleanup | internal/queue/queue.go:397-417 | done and failed lose exactly their expired jobs, pending and running nothing, a zero retention keeps everything, and the count is right |
| FileQueue.DueExactly | internal/queue/queue.go:419-458 | what stays is every entry but the readable job files whose job ended more than the retention ago, and every log but theirs; a retention that is not positive keeps everything |
| Worker.Worker.ProcessNext | internal/queue/worker.go:125-163 | the least pending file is claimed and ended as AfterOneExactly says, and a log is left unless the flow did not load or the log could not be created; an empty queue or an unreadable file changes nothing |
| Worker.AfterOneExactly | internal/queue/worker.go:125-163 | a processed job's file leaves pending and lies in done with exit code 0, or in failed with exit code 1 and what went wrong, with both times and otherwise as it was; nothing else changes |
| Worker.Worker.DrainQueue | internal/queue/worker.go:80-97 | terminates; exactly the jobs before the first malformed file end, each once and in the right directory with its core intact, and everything else is untouched |
| Template.MatchIsThePattern | internal/engine/template.go:10-16 | the matcher finds a reference at the start of a text if and only if the text begins with what the reference's regular expression describes, so a match is unique |
| Template.MatchShape | internal/engine/template.go:10-16 | a match has its only '$' in front and does not depend on what follows it |
| Resolution.FindAllExactly | internal/engine/template.go:31-60 | the parsed list of any text contains a matched text if and only if it occurs in the text |
| Resolution.FoundIsRaw | internal/engine/template.go:31-60 | every parsed reference is of the pattern's kind and its raw text matches the pattern with its names |
| Resolution.ParseRefs | internal/engine/template.go:31-60 | the parsing loop yields the successive leftmost matches |
| Resolution.ReplaceFirst | internal/engine/template.go:68-74 | one replacement in clean text with a safe value removes exactly the first reference of its kind, keeps all others in order and keeps the meaning of the text |
| Resolution.SecretIsReplaced | internal/engine/template.go:76-86 | a command with one secret reference resolves to the text with the value held under that name in its place, and fails over that reference if there is none |
| Resolution.OutputIsReplaced | internal/engine/template.go:62-74 | a command with one output reference resolves to the text with the value that step recorded under that output, unless that completes a secret reference, and fails over that reference if there is none |
| Resolution.SubstReplaces | internal/engine/template.go:62-89 | simultaneous substitution keeps opener-free text and puts each reference's own value in its place |
| Resolution.SequentialIsSimultaneous | internal/engine/template.go:62-89 | for clean text and safe values the two loops fail at the first reference without a value and otherwise yield the text with every reference replaced by its own value |
| Resolution.SecretReferencesKept | internal/engine/template.go:76-86 | the secret references of the output-resolved text are exactly those of the original |
| Resolution.SafeExactly | internal/engine/template.go:68-74 | a value is safe if and only if it makes no "${{" between any opener-free texts |
| Resolution.ResolvesUnlessSecretFormed | internal/engine/template.go:76-86 | a command whose one reference has a value, safe or not, resolves to the text with the value in place if and only if the value completes no secret reference; otherwise, if the completed text is clean and its secrets are safe, completed references to declared secrets are replaced by those secrets and the first undeclared one makes it fail |
| Resolution.OutputNamesSecret | internal/engine/template.go:76-86 | an output whose value spells a reference to a secret is replaced by that secret in the next command |
| Resolution.SecretLoop | internal/engine/template.go:76-86 | over clean text with safe secrets the second loop fails at the first secret without a value and otherwise replaces every secret reference and nothing else |
| Resolution.WhoFormsSecrets | internal/engine/template.go:76-86 | a value completes a secret reference in some command if and only if, alone or behind "$" or "${", it holds, ends in, begins or continues a part of one |
| Resolution.SafeFormsNone | internal/engine/template.go:76-86 | no safe value does, and the empty value and every value ending in "$" or "${" does |
| Secrets.SecretManager.Load | internal/engine/secret.go:33-43 | declarations are loaded in order over what is there, up to the first that has no value |
| Secrets.LoadFails | internal/engine/secret.go:45-69 | loading fails if and only if some declaration has neither a set variable nor a readable file, and reports the first one by what it lacks |
| Secrets.LoadStops | internal/engine/secret.go:33-43 | on a failure exactly the declarations before the failing one stay loaded |
| Secrets.LoadScope | internal/engine/secret.go:33-43 | after loading, a name is visible if and only if it was before or is declared; a declared one has its variable's value as it is, or else its file's text trimmed, and the others are kept |
| Secrets.SecretManager.Clone | internal/engine/secret.go:103-110 | a new manager with the same secrets, so that loading into it leaves the original alone |
| Secrets.SecretManager.Mask | internal/engine/secret.go:92-101 | the result of masking in some iteration order; if all secrets are mask-safe it contains none of them, and a text without secrets is returned as it is |
| Secrets.MaskReplaces | internal/engine/secret.go:92-101 | masking a value puts *** for each of its occurrences from the left and keeps the text between them |
| Secrets.MaskComplete | internal/engine/secret.go:92-101 | in every iteration order, no non-empty mask-safe secret is left in the result |
| Secrets.MaskIdempotent | internal/engine/secret.go:92-101 | masking again in any other order changes nothing |
| Secrets.MaskExactly | internal/engine/secret.go:92-101 | a single value is removed from every text if and only if it neither begins nor ends with '*' nor contains the mask |
| Secrets.NoStarsIsSafe | internal/engine/secret.go:92-101 | values without '*' are mask-safe |
| OutputFile.ParseOutputFile | internal/engine/state.go:177-212 | a missing file gives no variables, an over-long line an error, any other content its last-wins pairs |
| OutputFile.ParseExactly | internal/engine/state.go:191-212 | a file fails if and only if a line fills the scanner's buffer; otherwise a key has the value of the last line that assigns it, around its first '=' and trimmed, where comments and lines without '=' assign nothing |
| OutputFile.ParseAppended | internal/engine/state.go:192-205 | parsing an appended file is the first parse overridden by the second, and fails exactly if one of the two does |
| OutputFile.PairRoundTrip | internal/engine/state.go:193-204 | a rendered key=value pair is read back if and only if both parts are trimmed and on one line, the key has no '=' and does not begin with '#', and the line fits the scanner |
| OutputFile.RenderParses | internal/engine/state.go:178-212 | rendering such pairs and parsing them gives every key its last value |
| OutputFile.LastWinsSpec | internal/engine/state.go:199-204 | a key has the value of its last pair, and only keys of pairs have one |
| Flow.ValidateTools | internal/engine/parser.go:226-256 | accepts exactly named, distinct tools with a positive retry count whose path is given exactly for archives; a refusal names a fault that is there |
| Flow.ArchiveSuffixes | internal/engine/tool.go:465-473 | an archive is told by one of five suffixes, in whatever case |
| Flow.ValidateSecrets | internal/engine/parser.go:206-224 | accepts exactly named, distinct secrets with a source; a refusal names a fault that is there |
| Flow.ValidateSteps | internal/engine/parser.go:146-190 | accepts exactly steps with distinct names and sound outputs and secrets, and reports whether any command refers to an output |
| Flow.NoTemplatesNoFault | internal/engine/parser.go:192-196 | the reference check that is skipped for want of references would have found nothing |
| Flow.ValidateTemplateReferences | internal/engine/template.go:91-137 | accepts exactly if every reference means an earlier step that declares the output, the last step of a name counting; a refusal names a reference that does not |
| Flow.ValidateSecretReferences | internal/engine/template.go:139-170 | accepts exactly if every secret reference is declared for the flow or its step; a refusal names one that is not |
| Flow.SecretRefsMean | internal/engine/template.go:139-170 | a step's secret references are accepted if and only if each is declared for the flow or the step |
| Flow.ValidateFlow | internal/engine/parser.go:134-204 | accepts exactly the valid flows, and every error it returns is a fault of the flow |
| Engine.StateManager.CollectOutputs | internal/engine/state.go:125-175 | the declared outputs are recorded under the step's name in order, up to the first that is missing, not checkable or outside the state directory |
| Engine.CollectedExactly | internal/engine/state.go:143-172 | collecting succeeds if and only if every declared output is there, and otherwise reports the first one that is not by what is wrong with it |
| Engine.CollectStops | internal/engine/state.go:143-172 | on a failure exactly the outputs before the missing one stay recorded |
| Engine.GatherExactly | internal/engine/state.go:125-175 | a collected variable has its value from the output file and a collected file its path, under the step's name; an unreadable output file is an error, and other steps' outputs are not touched |
| Engine.ResolveTemplates | internal/engine/template.go:62-89 | the two loops over the managers compute the resolution that Resolution treats, over the values the managers hold |
| Engine.Run | internal/engine/core.go:154-214 | runs the specified interpreter; the flow's secrets are unchanged by any step, and the message of a failed command is its error masked with the secrets it ran with and contains no mask-safe one |
| FlowSafety.EarlierSteps | internal/engine/core.go:171-210 | every earlier step's outputs are stored as the step itself recorded them, and nothing else is stored |
| FlowSafety.ReferenceResolves | internal/engine/parser.go:192-196 | a validated reference at a reached step resolves to the value the named earlier step recorded |
| FlowSafety.ReferenceExactly | internal/engine/template.go:119-133 | at a reached step a reference has a value if and only if the validator accepts it |
| FlowSafety.SecretScope | internal/engine/core.go:181-185 | at each step exactly the flow's and the step's own secrets are visible, each the value of its own declaration, the step's winning, and no other step's leak in |
| FlowSafety.StepResolves | internal/engine/core.go:187-191 | a validated step's command never lacks an output; clean and safe, it becomes its simultaneous substitution |
| FlowSafety.RunInOrder | internal/engine/core.go:171-214 | steps run in order without gaps, and a completed run ran all of them |
| FlowSafety.CompletesExactly | internal/engine/core.go:154-214 | a run completes if and only if the flow's secrets load and every step proceeds |
| FlowSafety.ProceedsExactly | internal/engine/core.go:171-211 | a step proceeds unless it is cancelled, fails to load its secrets, to resolve, to prepare, to execute or to have its outputs collected; a command that is only a comment cannot fail |
| FlowSafety.StopsExactly | internal/engine/core.go:171-211 | a run stops at the first step that does not proceed, with the error of what failed there, and no later command is run |
| FlowSafety.ValidatedFlowsDoNotGoWrong | internal/engine/core.go:154-214 | for every validated flow and every behaviour of its commands no run fails with an invalid output reference, a clean and safe step does not fail over a secret, and each executed command is the original with every reference replaced by its own value |
| Scheduler.FileStore.List | internal/scheduler/store.go:59-96 | every schedule of the store, once, in the order of the names |
| Scheduler.FileStore.Get | internal/scheduler/store.go:98-109 | the schedule stored under the trimmed name, or why there is none |
| Scheduler.FileStore.Save | internal/scheduler/store.go:111-122 | stores under the schedule's own, untrimmed name, and changes nothing on failure |
| Scheduler.FileStore.Delete | internal/scheduler/store.go:124-144 | removes exactly the trimmed name, and nothing on failure |
| Scheduler.Scheduler.Start | internal/scheduler/scheduler.go:50-72 | an entry is added for each enabled schedule of the store in turn; a coherent scheduler stays coherent if and only if it had no entry |
| Scheduler.Scheduler.Create | internal/scheduler/scheduler.go:81-120 | the checks in order, then save, then the entry; what is stored is the request with its creation time, and coherence is kept |
| Scheduler.Scheduler.Update | internal/scheduler/scheduler.go:122-164 | what is stored is the request with the creation time and last run found under the trimmed name, and the old entry goes before the save; coherence is kept |
| Scheduler.Scheduler.Delete | internal/scheduler/scheduler.go:166-180 | the entry of the name as given and the stored schedule of the trimmed name go; coherence is kept exactly as DeleteExactly says |
| Scheduler.Scheduler.Enable | internal/scheduler/scheduler.go:182-204 | a disabled schedule is saved as enabled and entered; coherence is kept |
| Scheduler.Scheduler.Disable | internal/scheduler/scheduler.go:206-226 | the entry goes, then the schedule is saved as disabled; coherence is kept exactly as DisableExactly says |
| Scheduler.Scheduler.ScheduleJob | internal/scheduler/scheduler.go:300-337 | what is enqueued is the schedule stored when the trigger fires, and only its last run changes; coherence is kept |
| Scheduler.Scheduler.UpdateFlowReferences | internal/scheduler/scheduler.go:371-400 | exactly the schedules that name the old flow and can be saved are moved to the new one; coherence is kept |
| Scheduler.CreateStores | internal/scheduler/scheduler.go:81-120 | the error of the first check that fails, and nothing changed; otherwise the request is stored with its creation time and, if enabled, has a trigger of its expression |
| Scheduler.UpdateStores | internal/scheduler/scheduler.go:122-164 | the error of the first check that fails, and nothing stored; otherwise the request is stored but for the two kept times, and has a trigger of its new expression if and only if it is enabled |
| Scheduler.DeleteRemoves | internal/scheduler/scheduler.go:166-180 | the entry of the name as given goes, and the trimmed name's file unless it is unknown or cannot be removed |
| Scheduler.EnableStores | internal/scheduler/scheduler.go:182-204 | a disabled schedule is stored as enabled and then started; a bad expression is reported after it was stored |
| Scheduler.DisableStores | internal/scheduler/scheduler.go:206-226 | an enabled schedule is stopped under the name as given and stored as disabled; otherwise nothing changes |
| Scheduler.FireStores | internal/scheduler/scheduler.go:300-337 | a trigger enqueues what is stored under its trimmed name at that moment and stamps its last run if that succeeds |
| Scheduler.DeleteExactly | internal/scheduler/scheduler.go:166-180 | Delete breaks coherence if and only if the file can be removed, the name has surrounding spaces and the schedule of the trimmed name is running |
| Scheduler.DeleteLeavesTrigger | internal/scheduler/scheduler.go:166-180 | creating "a" and deleting "a " succeeds, removes the file and leaves the trigger running |
| Scheduler.DisableExactly | internal/scheduler/scheduler.go:206-226 | Disable breaks coherence if and only if the save succeeds, the name has surrounding spaces and the schedule of the trimmed name is running |
| Scheduler.StartFresh | internal/scheduler/scheduler.go:50-72 | a first Start is coherent and enters exactly the enabled schedules with a valid expression |
| Scheduler.StartRuns | internal/scheduler/scheduler.go:50-72 | every enabled schedule with a valid expression gets a trigger of that expression |
| Scheduler.StartExactly | internal/scheduler/scheduler.go:50-72 | Start keeps a coherent scheduler coherent if and only if no schedule has an entry yet |
| Scheduler.OpExactly | internal/scheduler/scheduler.go:81-226 | every operation, also when its writes fail, keeps coherence, except exactly a Delete or Disable that finds a running schedule only by trimming the name it was given and whose write succeeds |
| Scheduler.OpCompletes | internal/scheduler/scheduler.go:81-226 | with valid stored expressions and successful writes every operation keeps an entry for each enabled schedule, except exactly a Delete or Disable whose untrimmed name has an entry of its own while it works on the schedule of the trimmed name |
| Scheduler.DisableUndoesEnable | internal/scheduler/scheduler.go:182-226 | for a disabled schedule with a valid expression, disabling after enabling restores store, entries and triggers if and only if the name is given trimmed |
| Scheduler.DeleteUndoesCreate | internal/scheduler/scheduler.go:81-180 | for a new schedule with a valid request, deleting after creating restores store, entries and triggers if and only if its name is trimmed |
| Scheduler.OnlyTheTarget | internal/scheduler/scheduler.go:122-337 | no operation touches another schedule's file; an update keeps the creation time and last run found under the trimmed name, enabling and disabling change nothing else, a trigger only the last run, a rename only the flow |
| Scheduler.CoherentAlways | internal/scheduler/scheduler.go:50-400 | after one Start and throughout any operations entries are a bijection onto the live triggers of enabled schedules if and only if no Delete or Disable is misaddressed, and cover all of them, if writes succeed and stored expressions are valid, with an equally exact exception; with trimmed names there is neither |
| Registry.FileFlowRegistry.List | internal/registry/registry.go:69-93 | sorted, and each name as often as there are files with either extension for it |
| Registry.BothExtensions | internal/registry/registry.go:69-93 | a flow's name is its file's name without .yaml or .yml |
| Registry.FileFlowRegistry.Get | internal/registry/registry.go:95-113 | the content that the trimmed name means, or why there is none |
| Registry.FileFlowRegistry.Add | internal/registry/registry.go:134-156 | a valid name gets the content and no other changes; a failure changes nothing |
| Registry.FileFlowRegistry.Delete | internal/registry/registry.go:115-132 | exactly the trimmed name's file goes, or nothing if that fails |
| Registry.FileFlowRegistry.Rename | internal/registry/registry.go:158-210 | the content moves from the old to a free new name; the old file stays if it cannot be removed |
| Registry.RenameMeaning | internal/registry/registry.go:158-210 | after a rename the new name means what the old did, the old one nothing, and every other name what it did |
| Registry.ListedNamesMean | internal/registry/registry.go:69-113 | the listed names are exactly the trimmed names that have a content |
| Rename.RenameFlow | internal/server/server.go:641-690 | the registry is renamed first, and only on success are the schedules relinked with the names as given |
| Rename.RenamePreservesMeaning | internal/server/server.go:659-683 | every schedule whose flow existed runs the same content as before if and only if no schedule spells the flow differently from the request |
| Rename.RenameLeavesNoTrace | internal/server/server.go:659-683 | after an accepted rename a schedule still refers to the old flow if and only if it spelled it differently from the request, and such a schedule runs nothing any more |
| Rename.RenameOverlooks | internal/server/server.go:642-683 | a request to rename "a " to "b" is accepted and leaves a schedule of flow "a" as it is, with nothing to run |
| Tools.ToolManager.NeedsDownload | internal/engine/tool.go:160-184 | false exactly if the binary is there and the metadata records this URL, path and checksum |
| Tools.ToolManager.Download | internal/engine/tool.go:186-232 | the first complete attempt is the result, and the destination holds what the last attempt that opened it wrote |
| Tools.ToolManager.ResolveDownloadedTool | internal/engine/tool.go:90-158 | the cases of cache hit, direct binary and archive, with what each failure leaves on disk |
| Tools.ToolManager.Resolve | internal/engine/tool.go:64-78 | the declarations in order, up to the first failure |
| Tools.ResolvedExactly | internal/engine/tool.go:90-158 | a cache hit does nothing; otherwise the first complete one of the allowed attempts decides, in turn its checksum, its binary and its installation, with what each failure leaves on disk |
| Tools.ResolvesAll | internal/engine/tool.go:64-78 | distinct tools resolve if and only if each does on its own: one without a URL is on the search path, any other resolves in the directory as it was |
| Tools.FetchLeaves | internal/engine/tool.go:186-232 | a failed download leaves what the last attempt that was cut off wrote |
| Tools.FetchTouches | internal/engine/tool.go:186-232 | a failed download touches its destination if and only if an attempt was cut off |
| Tools.ResolvedIsInstalled | internal/engine/tool.go:90-158 | a tool resolved without error is installed with a binary that came from its URL, path and checksum |
| Tools.ResolveKeepsCache | internal/engine/tool.go:90-184 | connection errors, bad responses, checksum mismatches and missing binaries keep every cache hit genuine |
| Tools.FailedDownloadExactly | internal/engine/tool.go:134-138 | a failed direct download keeps the cache genuine if and only if no attempt was cut off, or no metadata is there, or the bytes happen to be right |
| Tools.ResolveInstalls | internal/engine/tool.go:64-78 | a successful Resolve leaves every downloaded tool installed for its own declaration |
| Tools.ResolveAllKeepsCache | internal/engine/tool.go:64-78 | Resolve keeps the cache genuine under those failures, whatever its result |

## Left out

- HTTP handlers, the client, the command line and the web interface: plumbing; only the order of calls in a rename and the status inference are used.
- YAML and JSON codecs: decoding after encoding is taken to be the identity; a stored file is a record or malformed.
- Text is a sequence of characters; the code counts bytes, which differs for the scanner's line limit and for string order beyond ASCII.
- sha256, archive formats, what a URL serves, the cron parser, path cleaning and commands are parameters about which nothing is assumed.
- AtMostOnce, and the other theorems of QueueTheorems: assume that os.Remove of a claimed pending file succeeds, which moveJob does not check; FailedRemoveDuplicates shows that this is needed.
- QueueProtocol: fresh random ids are distinct, a directory listing is one step, and a readable directory stays readable.
- QueueProtocol: a deletion that races with a claim or a running job is a step like any other, but it is not claimed to be final, since moveJob writes the job again.
- DrainQueue: cancellation and the polling loop around it are not modelled; that shutdown leaves nothing in running is NothingLeftRunning.
- Enqueue: a failing write changes nothing here; a temporary file it may leave behind is in QueueProtocol only.
- Run: begins after tools are resolved and the state directory exists, on a host that supports every shell step; tools are treated in Tools, teardown is not modelled.
- ResolvesUnlessSecretFormed: commands with several references and unsafe values are not treated; for safe values SequentialIsSimultaneous covers any number.
- MaskComplete: for several secrets the condition on each is sufficient; it is exact for a single secret (MaskExactly).
- Scheduler: its operations read and write without a common lock; each is taken to be atomic.
- FileStore: the file of a schedule is named after it, as Save does; malformed schedule files, and files put there by hand under another name, are not modelled.
- Tools: a binary that is itself valid metadata of another tool is excluded by the names (no tool is called *.meta.json), and metadata is written whole or not at all.
- Conversion of raw YAML structs to flows, environment assembly, log files and run ids: easy or uninteresting.
