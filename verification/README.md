# GoCRMS: a verified model of its job protocol, caches and tools

GoCRMS runs jobs on a cluster. Clients put jobs and assignments into etcd, each server watches its own assign
directory and runs what it finds there with a fixed number of slots, and clients mirror the store in maps. This
project models that protocol in Dafny, together with the client caches, the tolerant log comparison of the test
tools, the registry of once-only functions, the cohort registration of the etcd starters and the submission of jobs.
`dafny verify dfyconfig.toml` checks all of it.

| file | what it models |
|---|---|
| `Etcd.dfy`, `Strings.dfy` | keys, writes and events of the store; the string functions of Go's library that are used |
| `JobFeed.dfy` | the watch, the listing and the channel between the store and the workers of a server |
| `SlotServer.dfy`, `SlotDraining.dfy`, `SlotVerdicts.dfy`, `CrmsServer.dfy` | the slot server of `gocrms`: a state machine with crashes, why it drains, what it leaves in the job nodes, and the object whose goroutines take the steps |
| `JobRunner.dfy`, `JobRecovery.dfy`, `JobDraining.dfy`, `JobServer.dfy` | the older server: the order of a run's writes, what survives crashes, why it settles and what it leaves, and the object whose goroutines take the steps |
| `RunWrites.dfy`, `JobResults.dfy` | a run's writes one by one in the history, and that they are what its command gave |
| `Reassignment.dfy` | exactly which assignments are sure of a verdict of their own, and which of a run of their own |
| `JobCache.dfy`, `ServerCache.dfy`, `CrmsCli.dfy` | the client's picture of jobs and servers on values, and the objects it updates in place |
| `OutputBeforeVerdict.dfy`, `RepeatedRuns.dfy`, `SerialRuns.dfy` | server, store and client together: verdicts and outputs of a first run, and of runs one after the other; which servers run jobs so |
| `JobScenarios.dfy`, `MixedOutputs.dfy` | concrete runs from a start, and those in which a verdict is shown with something else than its output |
| `LogMatching.dfy`, `LogOrder.dfy`, `LogSymmetry.dfy`, `LogEq.dfy` | the tolerant comparison on values: what it accepts, when nothing moves, and the other way round; and in place on shared log items |
| `LogText.dfy`, `LogParse.dfy` | logs as text, and the parser that builds log items |
| `OnceFuncs.dfy` | the registry that compacts its buffer while functions are being called |
| `Cohort.dfy`, `RegFile.dfy` | the registration protocol, and the registration file as text |
| `Submission.dfy` | submitting a job with three writes, any of which may fail or be the last |

The distributed parts are state machines: `Enabled` and `Do` give the steps of every participant, a run is a sequence
of enabled steps in any order, and a crash throws everything away but the store. Where the code works by updating
objects, a class has the same fields, each method is tied by its postcondition to a step or to a function on values,
and the properties are proved about those.

## Conditions and counterexamples

Several promises hold only under a condition. Lemmas show the failing run or input, and say when the promise is kept.

* A server without slots accepts assignments and never works on them (`SlotDraining.DrainsIffThereIsASlot`).
* The older server opens its watch in a goroutine that may come after its listing, and leaves jobs behind whose node
  holds no command (`JobRecovery.AssignmentCanBeMissed`, `JobRecovery.LeftUndone`). A restart makes up for the first:
  left alone, it leaves exactly the jobs with nothing to run (`JobDraining.RestartSettles`).
* A job assigned again while a worker is about to remove its key can be forgotten in a crash
  (`Reassignment.ReassignmentCanBeForgotten`). An assignment is sure of a verdict of its own if and only if no worker
  is in that position when it is made (`Reassignment.StaysUntilJudgedIff`), and of a run of its own if and only if no
  run of the job is going on (`Reassignment.StaysUntilRunIff`).
* A verdict is always shown with its output as long as one run has touched the job
  (`OutputBeforeVerdict.VerdictComesWithOutput`). With several runs, one at a time, every client shows each of the
  job's two keys as of some moment, which the events it was told and the states it read decide
  (`RepeatedRuns.AnyReaderShowsAsOf`), and that says exactly which verdicts come with nothing, with their own output or
  with another run's (`RepeatedRuns.VerdictOfAnyReader`). Clients for which nothing was put to a key between that
  moment and the one their watch has reached are up to date, and of those only the ones that connected between a run's
  deleting the old output and its marking the job, and have been told of no new output since, show a verdict without
  its output (`RepeatedRuns.VerdictsOfRepeatedRuns`, `MixedOutputs.GapShowsNothing`). The others show a put that has
  been overwritten, or one they have not been told of yet (`RepeatedRuns.NotCurrentShows`), and can mix two runs:
  those that read ahead of the watch until it has caught up (`MixedOutputs.ReadingAheadMixes`), those that read behind
  it until something new is put or they read again (`MixedOutputs.ReadingBehindMixes`).
* Runs of a job that overlap mix verdicts and outputs even in the store, and one assignment is enough for that, if
  listing and watch both send it (`MixedOutputs.OverlappingRunsMix`). This is impossible if and only if the server has
  no more than one worker (`SerialRuns.SerialIffOneWorker`, `SerialRuns.NeverMixesIffOneWorker`).
* The log comparison limits how far a message is pulled forward, not how far it drifts back, and is not symmetric
  (`LogSymmetry.NotSymmetric`); `LogSymmetry.SymmetricIff` and `LogSymmetry.WayBackIff` say when it is.
* A starter that is slow to read the registration file may find a later cohort in it (`Cohort.LateReadersExist`). It
  derives its own cohort if and only if the file holds that cohort when it reads, and is listed if and only if it is
  in the file (`Cohort.DerivesItsCohortIff`).
* `SubmitJob` does not look at the error of the counter's write before it assigns the job; an ID is then used twice
  (`Submission.IdsAreReusedIffCountIsLost`).

## Model

| member | source | states |
|---|---|---|
| Etcd.AssignKeyRoundTrip | gocrms/assign.go:38-46 | the job ID the handler slices off a key of the directory is the one and only job with that key |
| Etcd.JobOfAssignKey | gocrms/assign.go:38-46 | an assign key lies in its server's directory and gives back its job, whatever characters the ID has |
| Etcd.DirectoriesAreDisjoint | gocrms/crms.go:17-39 | a key of one server lies in the directory of another only if they are the same, for names without a slash |
| Etcd.DirJobsAreKeys | gocrms/crms.go:340-352 | a listing returns a job if and only if its assign key is stored |
| Etcd.DirJobsAfter | gocrms/crms.go:335-364 | how one put or delete of any key changes what a listing returns |
| JobFeed.WatchTellsIff | gocrms/crms.go:354-359 | an open watch tells of every change below its server's assign directory, and of nothing else |
| JobFeed.ObserveKeepsInFlight | gocrms/crms.go:354-359 | a put of an assign key under the watch brings the job on its way, and no event takes one off it |
| JobFeed.SendListedKeeps | gocrms/crmsd.go:90-96 | sending a listed job keeps the exact bookkeeping of both sources and the channel's capacity |
| JobFeed.ReceiveKeeps | gocrms/watch.go:25-43 | handling an event keeps the bookkeeping: a put becomes its job, a delete nothing |
| JobFeed.SendWatchedKeeps | gocrms/crmsd.go:85-89 | sending a watched job keeps the bookkeeping and the channel's capacity |
| JobFeed.TakeKeeps | gocrms/crmsd.go:62-64 | receiving from the channel keeps it first in, first out |
| JobFeed.SplitBySource | gocrms/crmsd.go:85-96 | what was sent is, as a multiset, what the listing sent plus what the watch sent |
| JobFeed.NothingAppearsOrVanishes | gocrms/crmsd.go:62-96 | listed IDs plus put events equal unsent, undelivered, in hand, queued and taken, as multisets |
| SlotServer.WhatStepsWrite | gocrms/crmsd.go:62-82 | the store after each step, key by key: a client's write, the job record with the verdict, the removal of the assign key; no other step writes |
| SlotServer.RunsIff | gocrms/crms.go:262-287 | a run may succeed if and only if the job node is there, can be read and does not say running |
| SlotServer.ListingKeeps | gocrms/crmsd.go:85-96 | because the watch comes first, the listing leaves no stored assignment uncovered |
| SlotServer.RemoveKeeps | gocrms/crmsd.go:77-80 | deleting a finished job's assign key uncovers no other assignment |
| SlotServer.StepKeeps | gocrms/crmsd.go:34-99 | every step of server, client or crash keeps the invariant |
| SlotServer.RunsKeep | gocrms/crmsd.go:34-99 | so does every run |
| SlotServer.HeldAfter | gocrms/crmsd.go:62-82 | replacing one worker changes the multiset of held jobs by exactly its job |
| SlotServer.StepAccounts | gocrms/crmsd.go:62-82 | every job taken is held by a worker or has been handled to the end, after any step |
| SlotServer.NoAssignmentIsLost | gocrms/crmsd.go:62-96 | over all runs: after the listing, the job of every stored assign key is unsent, undelivered, being sent, queued or held |
| SlotServer.JobsAreConserved | gocrms/crmsd.go:26-96 | over all runs: conservation as multisets down to completed handlings, the channel's bound, and as many workers as slots |
| SlotDraining.StepCosts | gocrms/crmsd.go:62-96 | every server step lowers the measure, the delete event of a worker's own delete included |
| SlotDraining.SomeStepIsEnabled | gocrms/crmsd.go:62-96 | deadlock freedom: with a slot, a server that is not quiescent can take a step |
| SlotDraining.QuiescentIsEmpty | gocrms/crmsd.go:62-96 | a quiescent server's assign directory is empty |
| SlotDraining.RunsCost | gocrms/crmsd.go:62-96 | a run of server steps is no longer than the measure it uses up |
| SlotDraining.EveryScheduleDrains | gocrms/crmsd.go:62-96 | from every reachable state, every schedule ends after at most that many steps, at rest and with an empty directory |
| SlotDraining.CanDrain | gocrms/crmsd.go:62-96 | with a slot there is a run of server steps to an empty directory |
| SlotDraining.WithoutSlotsNothingHappens | gocrms/crmsd.go:62-82 | with no slot the server's steps never change the store |
| SlotDraining.DrainsIffThereIsASlot | gocrms/crmsd.go:30-82 | assigned jobs can be worked off if and only if the slot count is at least 1 |
| SlotDraining.StepStaysAlone | gocrms/crmsd.go:62-96 | no step of the server's own puts anything into its assign directory, and what it lists is what was assigned at its start |
| SlotDraining.EachJobIsHandledOnce | gocrms/crmsd.go:62-96 | a server left alone from its start until it is at rest has handled each assigned job exactly once, and no other |
| SlotVerdicts.RunThenRecord | gocrms/crms.go:242-259 | run and record: the job node says done, or failed with the error, by what the run came to; the rest of the record and of the store stays |
| SlotVerdicts.AloneIsInOneHand | gocrms/crmsd.go:62-96 | in a server left alone no job is with two workers, nor with one once it is finished |
| SlotVerdicts.RunsKeepVerdict | gocrms/crmsd.go:62-82 | over every run of a server left alone: a job's node is as at the start until its verdict is recorded, and then says what its one run came to |
| SlotVerdicts.RestHasVerdicts | gocrms/crmsd.go:62-82 | left alone until it is at rest, the server has run each assigned job exactly once and no other; every node that can be read says what its run came to, and all other job nodes are as before |
| CrmsServer.CrmsServer.constructor | gocrms/crmsd.go:21-32 | a new server starts the state machine on whatever is stored |
| CrmsServer.CrmsServer.Write | gocrms/crms.go:335-338 | a put or delete changes the store and reaches an open watch of the directory |
| CrmsServer.CrmsServer.WatchAssignJobs | gocrms/crms.go:354-359 | opening the watch is the machine's step |
| CrmsServer.CrmsServer.GetAssignJobs | gocrms/crms.go:340-352 | the listing loop returns exactly the assigned jobs, each once |
| CrmsServer.CrmsServer.ListAssignJobs | gocrms/crmsd.go:90-93 | the listing is the machine's step |
| CrmsServer.CrmsServer.SendListedJob | gocrms/crmsd.go:93-95 | one round of the listing loop |
| CrmsServer.CrmsServer.HandleWatchEvt | gocrms/watch.go:25-43 | one round of the event loop: a put reaches the handler with its job, a delete does nothing |
| CrmsServer.CrmsServer.SendWatchedJob | gocrms/crmsd.go:85-89 | the watch handler sends its job |
| CrmsServer.CrmsServer.ReceiveJob | gocrms/crmsd.go:62-65 | a slot receives the oldest job of the channel |
| CrmsServer.CrmsServer.GetJob | gocrms/crms.go:224-234 | the record that the job's node holds, if it is there and can be read |
| CrmsServer.CrmsServer.RunJob | gocrms/crms.go:265-287 | a slot runs its job: it fails if its node cannot be read or says running, and else ends as its command does; the store does not change |
| CrmsServer.CrmsServer.RecordJob | gocrms/crms.go:242-259 | the record with the verdict of the slot's run is stored if and only if the job node can be read; no other key changes, and the slot goes on either way |
| CrmsServer.CrmsServer.DeleteAssignJob | gocrms/crmsd.go:77-81 | the assign key is removed whatever the verdict was |
| CrmsServer.CrmsServer.Serve | gocrms/crmsd.go:34-99 | all goroutines in any order: the loop ends, with an empty directory if there is a slot and an untouched store if not |
| JobRunner.WhatStepsWrite | server/server.go:142-171 | the store after each step, key by key, whatever else goes on; no other step writes, and no crash loses anything |
| JobRunner.FetchesIff | server/server.go:117-138 | a worker goes on to run the job it has taken if and only if its node holds a command that can be run |
| JobRunner.WriteKeepsOrder | server/server.go:142-172 | a worker's next write extends its run's writes in their one order |
| JobRunner.StepKeepsOrder | server/server.go:117-172 | every step keeps: each run's writes are a beginning of delete, running, output, verdict, unassign |
| JobResults.WholeRun | server/server.go:142-171 | from the command on, whatever it gives: the store has that output and done or fail by its success, lacks the assign key and is otherwise as before; and the log has exactly these writes in order |
| JobResults.RunsFit | server/server.go:142-171 | over every run: what each run has put as output or verdict is what its command gave, for the job it was executed for |
| JobResults.LogHoldsResults | server/server.go:142-171 | so over all runs from the first start, crashes included |
| JobResults.AttemptIsGiven | server/server.go:159-169 | a run whose writes reach its verdict has written the result of its own command |
| JobRecovery.RunsKeepHistory | server/server.go:117-172 | over all runs the store is the replay of its history, and the history only grows |
| JobRecovery.RemovedAfterVerdict | server/server.go:162-171 | whenever a run removes an assign key, a run of that job had marked it running, saved output and recorded its verdict |
| JobRecovery.AssignedUntilVerdict | server/server.go:117-171 | across any crashes: a job assigned once and not unassigned by a client is still assigned, or its verdict came before its key was removed |
| JobRecovery.StepKeepsCover | server/server.go:266-333 | every step keeps each assigned job on its way, held, or counted as missed or dropped |
| JobRecovery.RunsKeepCover | server/server.go:266-333 | so does every run |
| JobRecovery.LeftUndone | server/server.go:117-138 | what a server at rest has left undone is exactly what was assigned between listing and watch or held no command |
| JobRecovery.AssignmentCanBeMissed | server/server.go:309-315 | the run in which a job assigned in that gap stays behind |
| Reassignment.WriteKeepsAfresh | server/server.go:142-171 | a write removes the key only after the same run has judged the job since the given moment |
| Reassignment.RunsKeepAfresh | server/server.go:117-171 | over every run from such a moment, crashes included, no run removes the key without having judged the job since |
| Reassignment.StaysUntilJudgedIff | server/server.go:162-171 | a stored assignment is removed, in whatever continuation, only after a verdict of its own, if and only if no worker is just about to remove it |
| Reassignment.AssignedUntilJudgedAfresh | server/server.go:162-171 | an assignment made at such a moment is still there at any later time unless a client unassigned it or a run judged it since |
| Reassignment.RunsKeepNewRuns | server/server.go:117-171 | over every run from a moment when no run of the job is going on, its key is removed only by runs that begin since |
| Reassignment.CanRemove | server/server.go:117-171 | a run that has begun can go on until it removes the key |
| Reassignment.StaysUntilRunIff | server/server.go:117-171 | a stored assignment is removed, in whatever continuation, only by a run that begins since, if and only if no run of the job is going on |
| Reassignment.ReassignmentCanBeForgotten | server/server.go:162-171 | a run from a start in which a renewed assignment is removed with the old one and lost in a crash |
| JobDraining.OwnWriteCosts | server/server.go:142-169 | what a run writes about its job leaves the assign directory and its watch alone, and leaves less work |
| JobDraining.StepCosts | server/server.go:117-333 | every server step lowers the measure |
| JobDraining.SomeStepIsEnabled | server/server.go:266-333 | deadlock freedom: with a worker, a server that is not at rest can take a step |
| JobDraining.EveryScheduleSettles | server/server.go:266-333 | from every reachable state, every schedule ends after at most that many steps, at rest; what is still assigned was missed or dropped |
| JobDraining.RunsLeaveJob | server/server.go:117-140 | without clients a job's node stays as it is, nothing is missed, and a job is run or dropped by what its node holds |
| JobDraining.RestartSettles | server/server.go:265-291 | left alone after a crash, every schedule ends at rest, and a job is still assigned if and only if it was and its node holds nothing to run |
| JobDraining.GoneMeansJudged | server/server.go:162-171 | a job that a server left alone has unassigned was judged before its key went |
| JobServer.Server.ListAssigned | server/server.go:266-282 | the loop that slices job IDs off the keys returns exactly the assigned jobs, each once |
| JobServer.Server.Feed | server/server.go:283-333 | whatever the listing or watch goroutine does next keeps the invariants and leaves less work |
| JobServer.Server.Continue | server/server.go:142-171 | whatever write or command a run does next keeps the order of its writes and leaves less work |
| JobServer.Server.Proceed | server/server.go:294-302 | so does whatever a worker does next |
| JobServer.Server.Serve | server/server.go:117-333 | all goroutines in any order: the loop ends at rest, what is still assigned was missed or dropped, and every other job was judged before its key went |
| JobCache.PathsOf | gocrmscli/crmscli.go:246-265 | the three keys of a job lead to its command, status and output |
| JobCache.PathsAreKeys | gocrmscli/crmscli.go:246-265 | no two keys lead to the same field |
| JobCache.HandleFields | gocrmscli/crmscli.go:236-267 | an event changes a field of a job if and only if it is a put to that field's own key |
| JobCache.FirstMention | gocrmscli/crmscli.go:236-267 | what a first put makes of an unknown job, key by key: new, with no command and no output but for what the put says; a delete makes nothing |
| JobCache.LastWriterWins | gocrmscli/crmscli.go:246-312 | every field is the last value put to its key, else what it was; for the command, the last that could be read |
| JobCache.KnownJobs | gocrmscli/crmscli.go:236-312 | a job is known if and only if it was, or some put lies below its key; deletes make none unknown |
| JobCache.SnapshotFields | gocrmscli/crmscli.go:279-290 | a snapshot sets every field to the stored value where there is one |
| JobCache.SnapshotOrderIsIrrelevant | gocrmscli/crmscli.go:279-290 | the order in which a snapshot lists its keys does not matter |
| CrmsCli.CrmsCli.GetJobOrCreateIfAbsent | gocrmscli/crmscli.go:236-243 | a known job keeps its object, an unknown one gets a new one with defaults |
| CrmsCli.CrmsCli.SetField | gocrmscli/crmscli.go:251-266 | the field a path leads to is set in place; an unreadable command is reported |
| CrmsCli.CrmsCli.UpdateJob | gocrmscli/crmscli.go:245-267 | the job objects become the updated picture, and no caller's object is replaced |
| CrmsCli.CrmsCli.GetJobs | gocrmscli/crmscli.go:279-290 | the snapshot loop absorbs every pair in order |
| CrmsCli.CrmsCli.WatchJobs | gocrmscli/crmscli.go:292-312 | the watch loop absorbs puts and ignores deletes |
| CrmsCli.CrmsCli.GetServers | gocrmscli/crmscli.go:147-178 | the snapshot loop enters exactly the readable, open servers, with the jobs assigned to each when they are read |
| CrmsCli.CrmsCli.ReadPair | gocrmscli/crmscli.go:154-176 | one round of that loop; closed and unreadable servers are passed over |
| CrmsCli.CrmsCli.GetAssignJobs | gocrmscli/crmscli.go:337-350 | the loop that slices job IDs off the keys returns exactly the jobs assigned to a server, each once |
| CrmsCli.CrmsCli.WatchServer | gocrmscli/crmscli.go:180-216 | one event of the server watch, in place: servers that stay keep their objects |
| CrmsCli.CrmsCli.WatchAssign | gocrmscli/crmscli.go:376-404 | one event of the assign watch, in place |
| ServerCache.BeliefIsStored | gocrmscli/crmscli.go:180-213 | the last readable word on a server differs from the store exactly when the store holds something unreadable for a server that was open |
| ServerCache.CachedServersAreStored | gocrmscli/crmscli.go:147-216 | however far the watches are: the cached servers are those with a stored number at the delivered point, with that ability |
| ServerCache.CachedServersAreNamed | gocrmscli/crmscli.go:147-216 | however far the watches are: every cached server has the name it is stored under |
| ServerCache.FirstWord | gocrmscli/crmscli.go:180-216 | a number for an unknown server enters it under its name with no jobs; close enters nothing |
| ServerCache.LaterWords | gocrmscli/crmscli.go:180-216 | for a known server: a number changes its ability and leaves its jobs, close or a delete removes it, anything else changes nothing |
| ServerCache.AssignedJobs | gocrmscli/crmscli.go:376-404 | a put or delete below the node of a known server adds or removes that job, and changes no other server |
| ServerCache.SegmentsAreJob | gocrmscli/crmscli.go:382-395 | splitting an assign key and slicing off the directory find the same server and job |
| ServerCache.HandleAssignJobs | gocrmscli/crmscli.go:386-400 | an assign event changes the jobs of a cached server exactly as it changes its directory |
| ServerCache.AssignAllIsDir | gocrmscli/crmscli.go:376-404 | from the first picture on, the cached jobs are the directory's |
| ServerCache.FromNothing | gocrmscli/crmscli.go:203-206 | a server entered later shows exactly the assigned jobs that were put since |
| ServerCache.CachedJobsAreAssigned | gocrmscli/crmscli.go:376-404 | however far the watches are: the cached jobs are assigned ones, all of them if the server was never out of the cache, else exactly those put since |
| OutputBeforeVerdict.ReplayOnKey | server/server.go:142-169 | on a key only one run writes, the whole history and that run's writes agree |
| OutputBeforeVerdict.StoreAfterWrites | server/server.go:142-169 | what the store shows of a job after the first n writes of its first run |
| OutputBeforeVerdict.DeliverShows | gocrmscli/crmscli.go:292-312 | delivering an event keeps: no verdict without its output |
| OutputBeforeVerdict.RefreshShows | gocrmscli/crmscli.go:279-290 | so does reading a snapshot of any moment |
| OutputBeforeVerdict.VerdictComesWithOutput | server/server.go:142-169 | end to end, over all runs and delays: a client that shows done or fail for a job only one run has touched, as far as the client has looked, shows done or fail by the success of that run's command, and its output |
| RepeatedRuns.VerdictHasOutput | server/server.go:159-169 | a run's verdict comes after its output, and no other write of it to the job's keys comes in between or later |
| RepeatedRuns.LastVerdictHasLastOutput | server/server.go:142-169 | when runs do not overlap, the last verdict is that of the last output, and only the deletion of that output can follow |
| RepeatedRuns.OutputIsMissingIff | server/server.go:142-146 | under a verdict the store holds no output if and only if the last write to the job's keys is a run's delete |
| RepeatedRuns.RefreshShowsAsOf | gocrmscli/crmscli.go:327-334 | reading the store as of any moment shows each key that it holds as of that moment, and leaves the others |
| RepeatedRuns.DeliverShowsAsOf | gocrmscli/crmscli.go:292-312 | being told of a put shows its key as of then |
| RepeatedRuns.AnyReaderShowsAsOf | gocrmscli/crmscli.go:279-334 | what any client shows of a job, whatever it has read and whenever, and whoever has written: of each key the last put as of the moment its last event or read gives |
| RepeatedRuns.CurrentShowsLast | gocrmscli/crmscli.go:279-334 | a key to which nothing has been put between that moment and the one the watch has reached is shown as the watch has told it |
| RepeatedRuns.NotCurrentShows | gocrmscli/crmscli.go:279-334 | any other is shown with a put that has been overwritten since, or that the client has not been told of yet |
| RepeatedRuns.NoOutputIff | gocrmscli/crmscli.go:279-334 | a client that has read nothing older than its connection shows no output if and only if there was none then and it has been told of none since |
| RepeatedRuns.FollowersShowLast | gocrmscli/crmscli.go:279-334 | a client that is up to date, however it came there, shows the last status put, and the last output put unless it connected while there was none and has been told of none since |
| RepeatedRuns.VerdictOfAnyReader | server/server.go:142-169 | with runs one at a time, for every client: the verdict shown is that of a run, and with it comes nothing, that run's output, or another run's, by the moments as of which the two keys are shown; the put shown is named literally |
| RepeatedRuns.VerdictsOfRepeatedRuns | server/server.go:142-169 | end to end, for every client that is up to date: the verdict is the last it has been told of and what the command of its run gave, and the output of that command is shown with it if and only if the client knows of an output, that is, did not connect in the gap or has been told of an output since |
| MixedOutputs.GapShowsNothing | server/server.go:145-146 | a run from a start into that gap: done is shown with no output |
| MixedOutputs.ReadingAheadMixes | gocrmscli/crmscli.go:327-334 | a client that reads the store ahead of its watch shows the first run's verdict with the second's output, until it has caught up |
| MixedOutputs.ReadingBehindMixes | gocrmscli/crmscli.go:327-334 | a client that has been told of everything and then takes in an older state of the store shows the first run's verdict with the second's output |
| MixedOutputs.OverlappingRunsMix | server/server.go:283-330 | a job assigned once and sent by both listing and watch runs twice at a time; store and clients show one run's verdict with the other's output |
| SerialRuns.OneWorkerIsSerial | server/server.go:294-302 | with one worker, runs of a job never overlap, through any crashes, whatever clients do |
| SerialRuns.SerialIffOneWorker | server/server.go:294-302 | over all runs of a server, runs of a job never overlap if and only if it has no more than one worker |
| SerialRuns.NeverMixesIffOneWorker | server/server.go:142-169 | the store never holds a verdict next to another run's output, over all runs of a server, if and only if it has no more than one worker |
| SerialRuns.AnyReaderOfOneWorker | server/server.go:142-169 | the statement for every client of such a server, with no condition on what it has run or the client has read; verdict and output are what commands gave |
| SerialRuns.VerdictsOfOneWorker | server/server.go:142-169 | the end-to-end statement for up-to-date clients of such a server, with no condition on what it has run; verdict and output are what a command gave |
| LogMatching.SwapPermutes | ut/log_eq.go:36-38 | swapping keeps the messages a permutation |
| LogMatching.SwapMoves | ut/log_eq.go:36-38 | swapping messages in the log is swapping their origins; times and relative times stay |
| LogMatching.PartnerIsFirst | ut/log_eq.go:71-87 | the partner of an item is the first acceptable place, and there is none only if no place is acceptable |
| LogMatching.RoundIffStep | ut/log_eq.go:71-87 | a round exchanges the message with that of the first acceptable place, or reports the item and moves nothing; there always is such a round, and only one |
| LogMatching.RoundsAreComparison | ut/log_eq.go:65-93 | whatever goes from the logs as they are by such rounds only comes to the origins, partners and errors of the comparison |
| LogMatching.StepKeeps | ut/log_eq.go:71-87 | one round keeps the invariant: matched items explained, unplaced messages only drifted later |
| LogMatching.ComparisonOutcome | ut/log_eq.go:65-93 | after any comparison: a permutation, every item matched or reported, nothing pulled forward by the threshold or more |
| LogMatching.NearFindsACandidate | ut/log_eq.go:77-82 | the search finds an acceptable place no later than any inside the window |
| LogMatching.Exchange | ut/log_eq.go:77-82 | whatever place the greedy search takes, the other places can still be served, and stay close |
| LogMatching.StillClose | ut/log_eq.go:77-82 | a swap with a place of the window leaves the relative times of the rest close where messages may have to move |
| LogMatching.PlansSucceed | ut/log_eq.go:71-87 | so a comparison that can succeed does |
| LogMatching.AcceptedIffExplained | ut/log_eq.go:65-93 | acceptance holds if and only if some permutation inside the window explains the messages, when times are sorted and relative times close where messages may have to move; long pauses do not matter |
| LogOrder.ErrorsInPlace | ut/log_eq.go:71-87 | where no message moves, the places reported are exactly those whose items differ |
| LogOrder.SameOrderIsAccepted | ut/log_eq.go:18-34 | logs with equal message sequences are accepted if and only if all relative times differ by no more than the threshold, either way |
| LogOrder.NoWindowIsEquality | ut/log_eq.go:77-80 | at threshold 0 acceptance is equality of messages and relative times; below 0 only the empty log is accepted |
| LogOrder.DriftIsBounded | ut/log_eq.go:110-115 | accepted logs with equal message sequences differ in their spans by at most (n-1) times the threshold |
| LogOrder.ParsedIsCloseToItself | ut/log_eq.go:110-115 | a parsed log in order meets that condition against itself, whatever pauses it makes |
| LogSymmetry.PermutationReaches | ut/log_eq.go:36-38 | a permutation of messages leaves none out |
| LogSymmetry.SymmetricIff | ut/log_eq.go:65-93 | for logs in order, close relative times and no message twice: an accepted pair is accepted the other way round if and only if no message is pulled forward by the threshold or more on its way back |
| LogSymmetry.WayBackIff | ut/log_eq.go:65-93 | in general, a log accepts another if and only if some reordering of the messages pulls none forward by the threshold or more when it is undone |
| LogSymmetry.ForwardWindowIsNoPart | ut/log_eq.go:65-93 | two logs for which that holds although no reordering inside the window explains the one by the other |
| LogSymmetry.NotSymmetric | ut/log_eq.go:65-93 | two logs that are accepted one way round and rejected the other |
| LogEq.LogItem.SwapMsg | ut/log_eq.go:36-38 | the two messages are exchanged in place |
| LogEq.FetchNear | ut/log_eq.go:77-83 | the inner loop swaps with the first acceptable place in the window or changes nothing |
| LogEq.Place | ut/log_eq.go:71-87 | one round of the outer loop, an item compared with itself included |
| LogEq.Turn | ut/log_eq.go:71-87 | that round with the error it may add, as a step of the comparison on values |
| LogEq.Eq | ut/log_eq.go:65-93 | the errors and the permuted expected items are those of the comparison on values; the actual items stay; lengths that differ are reported; a log is accepted by itself |
| Strings.AtoiReadsIff | ut/log_eq.go:142-146 | a text is read as a number if and only if it is digits with or without a sign, and fits into 64 bits |
| Strings.AtoiSigns | ut/log_eq.go:142-146 | a plus sign changes nothing, a minus sign negates |
| LogText.StampRoundTrip | ut/log_eq.go:135-150 | a zero-padded time stamp parses to its seven numbers |
| LogText.StampSeparators | ut/log_eq.go:135-150 | which separators stand between the numbers of a stamp |
| LogText.StartsItemIff | ut/log_eq.go:40-58 | a line starts an item if and only if it has 26 characters and a number at each of the seven places |
| LogText.GapIsDropped | ut/log_eq.go:53-53 | blanks and tabs behind the stamp are dropped |
| LogText.MessageIsRest | ut/log_eq.go:53-57 | from the first other character on, everything is message |
| LogText.TraceIsOneItem | ut/log_eq.go:99-109 | a stamped line followed by any lines that begin with a letter is one item, whose message joins all of them |
| LogText.LeadingLinesAreDropped | ut/log_eq.go:99-109 | lines before the first stamped one do not matter |
| LogText.BlanksDoNotMatter | ut/log_eq.go:96-100 | nor do blanks, tabs and carriage returns around a line, or these and newlines around a text |
| LogText.AbsorbRendered | ut/log_eq.go:99-109 | the lines of one rendered item add exactly that item |
| LogText.TrimRendered | ut/log_eq.go:96-96 | trimming a rendered log takes at most the blank behind an empty last message |
| LogText.ParsedIsLog | ut/log_eq.go:95-109 | whatever the text, the parsed messages are trimmed, hold no item of their own and do not end in a newline |
| LogText.RoundTripIff | ut/log_eq.go:95-117 | rendering and parsing give back the same items if and only if their messages are trimmed and their further lines do not start an item, which `LogText.StartsItemIff` describes by characters |
| LogText.ParsedTextIsStable | ut/log_eq.go:95-117 | a parsed text written out parses to the same items, for numbers without a sign |
| LogParse.ReadTime | ut/log_eq.go:135-150 | the loop over the widths reads each number at its place or fails at the first it cannot read |
| LogParse.ReadItem | ut/log_eq.go:40-58 | a line starts an item if and only if it is long enough and its stamp can be read |
| LogParse.ParseLine | ut/log_eq.go:100-108 | one round of the loop: a new item, or the last one's message grows in place, or the line is dropped |
| LogParse.ParseLines | ut/log_eq.go:99-109 | all rounds |
| LogParse.SetRelatives | ut/log_eq.go:110-115 | every item but the first gets its distance to the one before, in place |
| LogParse.ParseLog | ut/log_eq.go:95-117 | the items built are distinct, new and hold the parsed stamps, messages and relative times |
| LogParse.ParsedRelatives | ut/log_eq.go:110-115 | relative times add up to last time minus first |
| LogParse.EqLog | ut/log_eq.go:119-123 | no error is reported if and only if the comparison accepts what the two texts parse to |
| OnceFuncs.OnceFunc.Call | common/once.go:34-36 | afterwards the function has run, and run once |
| OnceFuncs.OutsideCalls | common/once.go:34-36 | calls from outside the lock, at any moment, only move functions forward |
| OnceFuncs.OnceFuncs.BetweenOperations | common/once.go:34-36 | calls between two operations of the registry leave it in order |
| OnceFuncs.IncreasingCount | common/once.go:53-58 | a full buffer of uncalled functions holds no more than there are |
| OnceFuncs.Keep | common/once.go:79-86 | moving an uncalled function forward keeps the kept part in order and the rest untouched |
| OnceFuncs.Drop | common/once.go:79-86 | so does passing over a called one |
| OnceFuncs.OnceFuncs.KeepIfUncalled | common/once.go:79-86 | one round of the compaction, calls from outside coming first |
| OnceFuncs.OnceFuncs.Round | common/once.go:79-86 | that round keeps the compaction in order: a function is kept if it was uncalled, else dropped as called |
| OnceFuncs.OnceFuncs.Scan | common/once.go:76-86 | what the loop does not keep has been called |
| OnceFuncs.OnceFuncs.RemoveCanceled | common/once.go:73-93 | compaction drops only called functions, keeps the order, and reports whether it dropped any, even if calls happen in between |
| OnceFuncs.OnceFuncs.MakeRoom | common/once.go:56-58 | a buffer that is still full after compaction held nothing but uncalled functions |
| OnceFuncs.OnceFuncs.Add | common/once.go:53-62 | the new function is last; the buffer grows only when full of uncalled functions, and stays within the capacity bound |
| OnceFuncs.OnceFuncs.Append | common/once.go:60-60 | in place while there is room, else into an array of twice the size |
| OnceFuncs.OnceFuncs.CallAll | common/once.go:64-71 | every function ever added has run, exactly once, and the buffer is empty |
| OnceFuncs.OnceFuncs.constructor | common/once.go:47-51 | an empty registry with the given capacity |
| Cohort.RegisterKeepsDistinct | etcdstarter/main.go:75-102 | a registration keeps hosts and addresses distinct and the file within the cluster size |
| Cohort.RegistersIff | etcdstarter/main.go:75-102 | a host is refused if and only if the file is partly filled and has its name or address; else it is appended, or starts a full file anew |
| Cohort.StepKeeps | etcdstarter/main.go:75-118 | every step keeps what is known of each starter and cohort |
| Cohort.RunsKeep | etcdstarter/main.go:75-118 | so does every run |
| Cohort.ReadsTheFile | etcdstarter/main.go:121-175 | a starter that reads takes in the whole file of that moment; nothing else changes |
| Cohort.CohortsAgree | etcdstarter/main.go:75-175 | over all runs: starters that read their own cohort's file derive the same string, of all its members, themselves included, in order |
| Cohort.ClusterInjective | etcdstarter/main.go:121-175 | two files give the same string if and only if they have the same members in the same order |
| Cohort.SiteReads | etcdstarter/main.go:167-172 | a member of the string splits at the equals sign, the scheme and the last colon into host, address and port |
| Cohort.ClusterReads | etcdstarter/main.go:121-175 | split at the commas, the string has one member for each registration, in order, that reads back as its host, its address and the port |
| Cohort.ClusterTellsPort | etcdstarter/main.go:164-172 | two strings are equal if and only if members, order and port are |
| Cohort.ListsItsMembers | etcdstarter/main.go:164-172 | a host is listed in the string, with its address and the port, if and only if it is in the file |
| Cohort.DerivesItsCohortIff | etcdstarter/main.go:87-175 | over all runs, however late a starter reads: it derives its own cohort if and only if the file it reads is that cohort, and is listed if and only if it is in the file |
| Cohort.LateReadersExist | etcdstarter/main.go:104-118 | four registrations for clusters of two give a late reader; it derives its cohort only if the same two registered again, and is listed only if it did |
| RegFile.CountLines | etcdstarter/main.go:245-262 | counting by chunks counts all line ends, wherever the chunks are cut |
| RegFile.CountRender | etcdstarter/main.go:245-262 | the number of lines is the number of registrations |
| RegFile.LineLayout | etcdstarter/main.go:100-100 | a registration is written as host, tab, address and newline |
| RegFile.RenderAppend | etcdstarter/main.go:89-100 | appending a line is appending a registration |
| RegFile.NextEntry | etcdstarter/main.go:133-150 | reading up to the delimiters gives back the next registration, or nothing at the end |
| RegFile.RegFile.HasRegistered | etcdstarter/main.go:177-210 | a host is found if and only if its name or address is registered |
| RegFile.RegFile.Register | etcdstarter/main.go:74-102 | the file and the count become those of the registration protocol; a refusal changes nothing |
| RegFile.RegFile.ParseCluster | etcdstarter/main.go:121-175 | the string derived from the text is the cluster of the first registrations; of a file that repeats hosts or addresses, of those that are kept |
| RegFile.KeptIsDistinct | etcdstarter/main.go:152-162 | whatever the file, no host or address is kept twice, and its first entry is kept |
| RegFile.DistinctIsKept | etcdstarter/main.go:152-162 | of a file without repetitions everything is kept |
| Submission.SubmitCounts | gocrms/crms.go:143-193 | when a submission returns, with which ID, and what becomes of counter and nodes, by the fate of each write |
| Submission.IdsAreConsecutive | gocrms/crms.go:156-181 | when all writes take effect, n submissions return the next n IDs in order, and the counter has grown by n |
| Submission.NodesAreRequests | gocrms/crms.go:143-193 | then each ID has the node of its own request, and is assigned if and only if that is not on hold; all others are as before |
| Submission.SubmitKeepsIff | gocrms/crms.go:143-193 | a submission keeps the IDs consistent if and only if its count is not lost |
| Submission.ConsistentIffNoCountIsLost | gocrms/crms.go:143-193 | so does a series, whatever fails or dies at any write |
| Submission.SubmissionsAreConsistent | gocrms/crms.go:143-193 | then returned IDs strictly increase, assigned IDs have a node that is not on hold, and an overwritten node was never assigned or returned |
| Submission.IdsAreReusedIffCountIsLost | gocrms/crms.go:181-191 | two returned IDs are equal if and only if the first submission lost its count, and then the first job is overwritten |
| Submission.Crms.SubmitJob | gocrms/crms.go:143-193 | the writes in order, with the state each failure or death leaves, and the assign key exactly when the last write takes effect |

## Left out

- The etcd client, leases, timeouts and heartbeats: a watch that has been opened delivers every later event on its
  prefix in order, and operations succeed unless a crash step is taken; only `Submission` lets single writes fail.
- The JSON of job records: readers and writers of records are parameters, and a value that cannot be decoded leaves the
  old command in place. Of the slot server's record the status and the error play a part; the other fields are one
  opaque value. `FailJob` names a status that `gocrms/job.go` does not declare; its `StatusExit` is meant.
- The execution of commands, their output files and wall-clock time: a run yields any output and any success flag; the
  time that a log stamp denotes is a function given from outside.
- `gocrms` does not type-check (job IDs are both numbers and strings); what is modelled is the protocol its control
  flow states.
- Shutdown: `Close`, the exit channel and the callbacks registered for closing, which may run twice.
- The start-up of the slot server before its workers: the lease, the registration and the watch of its own node. (Line 46 of `gocrms/crmsd.go` stores the bare name where line 35 looks for the server key, so a second server of the same name is not refused; another server's writes are among the client steps of the model.)
- The older server's watch of its own node, which matches by prefix and so reacts to servers with longer names.
- Negative slot counts, with which the program would not start.
- The gap between the client's snapshot and its watch: the watches are assumed to begin where the snapshot ends.
- Data races on the client's maps: each handler is one step.
- Assign keys without a server and a job segment, and names or IDs with a slash in the client: preconditions; the code
  indexes out of range on the former.
- ServerCache.CachedJobsAreAssigned: for a first picture taken at one moment, although `GetServers` is modelled with a read for each server, and for server names without a slash, because the client splits keys at slashes.
- RepeatedRuns.VerdictOfAnyReader: for jobs whose state and output only runs have written, one at a time; `SerialRuns` says which servers run them so.
- Cohort.DerivesItsCohortIff: for names without the separators of the string, a comma or an equals sign in a host or a comma in an address.
- Cohort.ClusterReads: also for addresses without an equals sign and ports without a comma, a colon or an equals sign; the program's port is a number.
- Cohort.CohortsAgree: registrations are atomic and the file the first one finds is well-formed, because the code locks nothing.
- Submission.SubmissionsAreConsistent: one submitter at a time and a counter that exists, because the code has no compare-and-swap.
- OnceFuncs.OnceFuncs.Append: an array that grows is taken to double, which Go does for small slices only.
- OnceFuncs.OnceFunc.Call: the flag that `unsafe` reads from `sync.Once` is a phase, and a caller that waits for another is not seen waiting.
- OnceFuncs.OnceFuncs.CallAll: does not say in which order the functions that are left run; nothing in the repository depends on it.
- LogEq.Eq: two logs without common items, or one log with itself, because the parser makes new items for every log.
- LogText.RoundTripIff: stamps of seven unsigned numbers in their widths, because only those can be written zero-padded.
- The texts of the log comparison's errors, and its diffs; text is a sequence of single bytes.
- The 64-bit range of IDs, abilities, counts and durations, but for the range in which a number can be read.
- How starters poll the file: they look at it at arbitrary moments.
- `JobHandlerFactory`, which compares with the wrong prefix, and `GetJobsByServer`, which writes into an empty slice.
- The order of numeric job IDs in tables, the web interface, command lines, golden files, Python scripts and plots.
