# Verified model of the inference gateway

A Dafny model of the parts of this repository whose correctness depends on interleavings,
on state kept over a whole run, or on two programs agreeing about a text format, with
proofs of what they keep.

```
dafny verify dfyconfig.toml
```

Code that changes state step by step is modelled by classes and loops
(`Admission.dfy`, `Gateway.dfy`, `Orchestrator.dfy`, `HarmonyStream.dfy`, `Forensics.dfy`,
`PrefixCache.dfy`) or by methods with loops (`Proxy.dfy`, `Thermal.dfy`). Each method is
proved equal to a function on values; the theorems are about those functions.

| component | files |
|---|---|
| admission gate | `AdmissionSpec`, `AdmissionTheorems`, `Starvation`, `Admission` |
| swap tasks, request lifecycle | `SwapSpec`, `GatewaySpec`, `GatewayTheorems`, `GatewayExclusion`, `GatewayServing`, `GatewayHandOver`, `Gateway` |
| profile swap | `OrchestratorSpec`, `OrchestratorTheorems`, `OrchestratorFailures`, `Orchestrator` |
| gateway and orchestrator together | `Fleet` |
| Harmony printer, tokenizer, parser | `HarmonySpec`, `HarmonyTheorems`, `HarmonyFields`, `HarmonyRoundTrip`, `HarmonyStream`, `HarmonyMeaning`, `HarmonyPrinter` |
| crash log | `LogText`, `ForensicsSpec`, `ForensicsTheorems`, `ForensicsRoundTrip`, `ForensicsVerdict`, `ForensicsReader`, `ForensicsMarks`, `ForensicsPruning`, `Forensics` |
| smaller loops | `Proxy`, `PrefixCache`, `Thermal`, `ShellQuote` |

## What is modelled

**Admission gate.** The single-threaded event loop makes every stretch of code between two
suspension points one atomic step, so the gate is a state machine over the events arrive,
deliver (a granted task resumes), release, cancel (a time-out or a cancellation reaches the
future) and handle (the except branch runs). A cancelled entry stays in the deque until its
own handler or a promotion removes it, and a grant may race with a cancellation: both
windows are in the model. Arrival tickets are ghost names for requests. The class
`AdmissionQueue` has the source's fields and its `_promote` loop, and keeps a ghost history,
so that in every state its methods can produce it stands for a reachable gate.

**Swap tasks and requests.** `SwapSpec` has the tracked slot, any number of tasks, the mutex
and the re-check under it. `GatewaySpec` composes gate, slot, mutex and the lifecycle of a
chat request: acquire, swap section, shielded wait, reply, streaming hand-over, release.

**Profile swap.** The five steps of `switch_profile` on the tracked container states and on
the set of exec-managed models that are serving. Several models may share one container.
What the environment decides is an argument: an exec-managed stop that fails in silence or
raises, an ordinary one that fails, a start that raises before or after a process came up,
too little memory, a time-out or an error while waiting. `Fleet` puts this world behind the
gate: whatever happens to the containers while a swap holds the mutex, its steps turn the
world it found into the one it leaves.

**Harmony.** Rendering, splitting on the special tokens, and the streaming parser. The
encoder is a parameter of which only this is assumed: it yields text tokens whose texts
concatenate to its input.

**Crash log.** Files are strings; every write of the writer is a list of appends, and a crash
keeps a prefix of that list. A history is any sequence of starts, rows, midnights, changed
columns, clean stops and deaths at any point, with one writer at a time and dates that do
not go back.

## What the proofs found

- *An abandoned swap breaks exclusion.* A request that gives up its shielded wait frees its
  slot while the swap goes on, so that the swap can tear down a model that serves another
  request (`GatewayTheorems.AbandonBreaksExclusion`). In every reachable state exclusion
  holds if and only if no abandoned, unfinished task is for another profile than the gate's
  (`GatewayExclusion.ExclusionIff`); a request admitted at once breaks it exactly if such a
  task exists when it arrives (`ArrivalBreaksIff`). With long polling on and nobody
  abandoning there is none (`LifecycleExclusion`), every request is served on its own profile
  (`GatewayServing.ServedOnActiveProfile`), and if swaps do what they report, by exactly its
  profile's models (`Fleet.ServedByItsModels`).
- *"Never duplicate" (gateway/app.py:582) is not so.* The slot remembers one target only. A
  caller joins the unfinished task in the slot if and only if every request since was for
  that target (`SwapSpec.CallersJoinIff`). With long polling off the endpoint reaches the
  other case with three requests (`GatewayExclusion.DuplicateTasks`). With long polling on,
  and as long as nobody abandons, at most one task is unfinished.
- *A failed swap keeps the old name.* Its half-started model is then nobody's outgoing
  model, and inside a shared container a later successful swap leaves it serving
  (`OrchestratorTheorems.FailedSwapLeavesStray`). A stop that fails in silence has the same
  effect at once, in a swap that reports success (`SilentStopLeavesStray`). `ExactIff` says
  exactly when a completed swap leaves only its target running.
- *The forced deep cleanup is not a full teardown.* What `_ensure_vram_available` repeats
  touches no container state and reaches no ordinary workload: it only sends the outgoing
  exec-managed models their stops again, and changes something if and only if one of them
  had survived the first teardown and is stopped now (`DeepCleanupIff`).
- *The last delta can be read twice.* A channel token inside content is ignored without
  clearing `last_content_delta` (`HarmonyStream.StaleDelta`); `DeltasIff` is the exact
  condition for a reader of the deltas.
- *The Harmony round trip needs stable fields.* `HarmonyRoundTrip.RoundTrip` is an
  equivalence: role, recipient and channel come back exactly when they meet conditions that
  can be checked before printing.
- *Logs without markers can divide the readers.* On any directory the start-up verdict and
  the post-mortem agree if and only if no file yields a session, or the newest that does
  holds a start marker, or its last session is clean exactly when the older files give no
  verdict (`ForensicsVerdict.ReadersIff`). A session split at midnight before the markers
  existed and stopped cleanly the next day is a false alarm (`LegacyMidnight`). On every log
  the present writer can leave they agree (`ReadersAgree`).
- *The sample in the start-up verdict can be another session's.* If no sample follows the
  start marker of the session it reports, the verdict shows that of an earlier session of
  the file (`ForensicsReader.SampleOfSession`).
- *Thermal thresholds must not overlap.* Hot readings take the cap down as they should over
  a whole run if and only if none of them takes the recovery branch at the last step
  (`Thermal.DangerRunIff`), which a cool threshold below the danger band rules out and an
  overlapping one does not (`OverlapLifts`).

## Model

| member | source | states |
|---|---|---|
| AdmissionTheorems.GateSafety | gateway/admission.py:23-95 | in every reachable state active is the number of unreleased leases, undelivered and raced grants included; it is between 0 and the limit; all leases carry the profile, which is None iff active is 0; the queue is within its bound |
| AdmissionTheorems.StrictFifo | gateway/admission.py:35-37 | over fast path and queue together, a ticket earlier than a granted one was granted before it, or was rejected, timed out or cancelled and is not granted later |
| AdmissionTheorems.WorkConservation | gateway/admission.py:64-95 | a non-empty queue means a lease is out; and the queue is empty, the gate full, the head of another profile, or a cancelled head's handler is about to run; after a handler step only the first three |
| AdmissionTheorems.StepKeeps | gateway/admission.py:64-95 | every atomic step keeps the gate invariant, and a handler step leaves nobody waiting who could be served |
| AdmissionTheorems.RunKeeps | gateway/admission.py:64-95 | the gate invariant over every run |
| AdmissionTheorems.PromoteKeeps | gateway/admission.py:64-73 | the promotion loop keeps the invariant, stops only when nobody can be served, and never takes back a grant |
| AdmissionTheorems.AcquireKeeps | gateway/admission.py:75-83 | arriving, whether granted, queued or rejected, keeps the invariant |
| AdmissionTheorems.HandleKeeps | gateway/admission.py:86-95 | the except branch keeps the invariant and restores the settled state |
| AdmissionTheorems.RacedGrantReturned | gateway/admission.py:87-89 | a slot granted to a task that was cancelled before it resumed is given back and offered on |
| AdmissionTheorems.RacedHandler | gateway/admission.py:86-95 | after a raced grant, the handler's own removal and promotion add nothing to the release |
| AdmissionTheorems.EntryForgotten | gateway/admission.py:90-93 | a cancelled or timed-out entry leaves the deque, the others keep their order |
| AdmissionTheorems.ArrivalIff | gateway/admission.py:75-83 | an arrival is granted at once iff nobody waits, a slot is free and no other profile holds one; turned away iff not, and the queue is full; otherwise the last of the queue |
| AdmissionTheorems.LeasesAsAsked | gateway/admission.py:59-83 | in every run each lease and each queue entry is for the profile its own caller asked for |
| Starvation.StepRank | gateway/admission.py:64-95 | the live entries ahead of a waiter plus the unreleased leases change in a step by exactly that step's progress: one for a release or a cancellation ahead, nothing for an arrival or anything else |
| Starvation.RankBudget | gateway/admission.py:64-95 | over any run that leaves a waiter waiting, rank plus progress is constant, and the rank stays above zero |
| Starvation.NoStarvation | gateway/admission.py:35-37 | whatever arrives, a run with as many releases and cancellations ahead as the waiter's rank grants it, unless it gave up itself |
| Starvation.StepStaysOut | gateway/admission.py:64-95 | a ticket that has left the queue never returns to it |
| Starvation.PromoteRank | gateway/admission.py:64-73 | promotion turns entries ahead into leases and leaves every waiter's rank as it was |
| Admission.Lease.Release | gateway/admission.py:23-29 | one release event of the gate; released is set; a second call changes nothing |
| Admission.AdmissionQueue.Create | gateway/admission.py:39-47 | the constructor's ValueError, exactly for limits no queue can have |
| Admission.AdmissionQueue.GrantLease | gateway/admission.py:59-62 | a fresh unreleased lease, active one higher, the profile taken over |
| Admission.AdmissionQueue.Promote | gateway/admission.py:64-73 | the while loop over the deque computes the promotion of the gate |
| Admission.AdmissionQueue.Acquire | gateway/admission.py:75-83 | admitted, queued or QueueFull exactly when the gate says so, and the gate takes the arrival step |
| Admission.AdmissionQueue.Resume | gateway/admission.py:85 | the task of a granted future gets its own unreleased lease |
| Admission.AdmissionQueue.CancelWaiter | gateway/admission.py:84-85 | a cancelled future stays in the deque until its handler runs |
| Admission.AdmissionQueue.Handler | gateway/admission.py:86-95 | the except branch is the handler step of the gate, in both of its branches |
| SwapSpec.ActiveIsLastClaimed | gateway/app.py:785-829 | over every run, racing callers, admin swaps and failures included: the active profile is the target of the last swap that completed, at most one task works, and the slot holds only an unfinished task and its target |
| SwapSpec.NoRedundantReload | gateway/orchestrator.py:306-318 | a completed swap to the profile that was already active when it got the lock was a forced one |
| SwapSpec.CallersJoinIff | gateway/app.py:781-799 | while the slot's task is unfinished: a caller for its target, forced or not, gets that task if and only if every request since it was put there was for that target |
| GatewayExclusion.DuplicateTasks | gateway/app.py:582-620 | a run of the gated endpoint, with long polling off, that ends with two unfinished tasks for one target |
| SwapSpec.ForcedTaskWorks | gateway/orchestrator.py:306-320 | in every run: a task made by an admin call with force, or by a request that found its profile active, not ready and no swap at work, takes the mutex when its turn comes, whatever is active then; any other does exactly if its target is not active, and otherwise ends with success and no work |
| SwapSpec.WorkEnds | gateway/orchestrator.py:376-388 | a task that did its work ends as the work did, for good, and with success exactly if its profile was claimed |
| SwapSpec.DoneStays | gateway/app.py:802-829 | a finished task stays finished |
| SwapSpec.StepKeeps | gateway/app.py:768-829 | every step of callers, mutex and tasks keeps slot, lock and claims consistent |
| GatewayTheorems.ExactlyOnceRelease | gateway/app.py:494-524 | in every interleaving a lease that is out has one owner, a finished request owns none, and release is called once for each granted ticket and never twice |
| GatewayHandOver.HandOver | gateway/app.py:516-524 | from the events alone, in every run: once a streaming answer is settled the lease stays out, unreleased, until the stream ends, which it may at any time; before that it is the handler's to settle or drop; an answer that does not stream is over when it is settled; what is over has released its lease once |
| GatewayHandOver.StreamHoldsLease | gateway/admission.py:122-135 | the same spelled out for a streaming answer, its hand-over, and whatever else happens until its end |
| GatewayHandOver.ArrivalMet | gateway/app.py:557-620 | a request admitted on arrival is served at once iff its profile is active, its container ready and no swap at work; otherwise it waits for an unfinished task for its profile, or is turned away without long polling |
| GatewayHandOver.ResumeMet | gateway/app.py:557-620 | the same for a request whose grant reaches it from the queue |
| GatewayHandOver.SwapMet | gateway/app.py:596-613 | after its swap a request is served iff the swap succeeded, and one that gives up is turned away |
| GatewayHandOver.NobodyStuck | gateway/app.py:494-524 | every request that is not finished can go on: what each may do in each phase |
| GatewayHandOver.GateProjects | gateway/app.py:494-524 | every step of the whole is a step of the gate or leaves it alone, so that all theorems about the gate hold of it |
| GatewayHandOver.SwapProjects | gateway/app.py:557-599 | the same for the swap tasks |
| GatewayTheorems.NoLeak | gateway/app.py:516-524 | when all requests are finished every slot is back and every granted lease was released once |
| GatewayTheorems.UnfinishedSwapMatches | gateway/app.py:557-599 | with nothing assumed: an unfinished swap task loads the profile of every lease that is out, or one of its waiters left it |
| GatewayTheorems.LifecycleExclusion | gateway/app.py:489-524 | with long polling on and no request abandoning its swap wait: at most one unfinished task, it is in the slot, and its target is the gate's profile and that of every lease |
| GatewayServing.ServedOnActiveProfile | gateway/app.py:557-626 | under the same hypotheses: while the backend works for a request or streams to it, the profile it was admitted for is the active one, whatever swaps failed, were forced or skipped before |
| GatewayServing.StepServed | gateway/app.py:557-599 | every step keeps that, a woken swap waiter included |
| GatewayServing.DecideServed | gateway/app.py:557-562 | a request is served at once only if its profile is active |
| GatewayTheorems.AbandonBreaksExclusion | gateway/app.py:596-613 | a run in which an abandoned swap works while a request of another profile is served |
| GatewayExclusion.ExclusionIff | gateway/app.py:557-613 | in every reachable state: every unfinished task is for the profile of every lease if and only if no abandoned, unfinished task is for another profile than the gate's |
| GatewayExclusion.BreaksIff | gateway/app.py:557-613 | from a state with exclusion a step breaks it if and only if it leaves the gate with a profile that clashes with a task abandoned before |
| GatewayExclusion.ArrivalBreaksIff | gateway/admission.py:75-78 | a request breaks exclusion on arrival if and only if it is admitted at once while an abandoned, unfinished task is for another profile |
| Fleet.ServedByItsModels | gateway/app.py:557-626 | gate, swaps and orchestrator composed: under the same hypotheses, if the swaps that did their work ran their five steps with effective stops, then whenever a request is served and no swap is at work exactly its profile's exec-managed models run, its containers are READY and no other tracked one is up |
| Fleet.StepInOrder | gateway/orchestrator.py:306-388 | every step of requests, tasks and swaps keeps that |
| GatewayTheorems.StepKeeps | gateway/app.py:494-599 | every step keeps gate, swap tasks, lease ownership and swap waits in order |
| GatewayTheorems.GiveBackOwned | gateway/app.py:522-524 | the release by handler or response is the lease's first, and leaves every other request as it was |
| GatewayTheorems.CreatesAlone | gateway/app.py:785-799 | a request of the gate's profile creates a task only when none is unfinished |
| Gateway.SwapTasks.GetOrCreateSwapTask | gateway/app.py:768-799 | returns an unfinished task for the target, the slot's one if it fits, and the slot then holds it |
| Gateway.SwapTasks.SwapSection | gateway/app.py:557-590 | a task exactly when a swap is needed, forced exactly in the unhealthy case without a swap under way; otherwise nothing changes |
| Gateway.SwapTasks.EnterSwap | gateway/orchestrator.py:306-320 | takes the mutex, or skips when an unforced swap finds its profile active |
| Gateway.SwapTasks.LeaveSwap | gateway/orchestrator.py:376-388 | claims the profile on success only, and frees the mutex either way |
| Gateway.SwapTasks.Return | gateway/app.py:822-829 | the slot is cleared only by the task it holds |
| Gateway.AdmittedStreamingResponse.Close | gateway/admission.py:122-135 | the response releases the lease handed to it, which is the stream's end in the composed system; one already released stays so and the gate as it was |
| Gateway.ChatHandler.Conclude | gateway/app.py:516-524 | afterwards exactly one of handler and response answers for the lease: it was handed over as it was, or it is released; for the gate this is the settling of the answer in the composed system |
| OrchestratorTheorems.CompletedSwap | gateway/orchestrator.py:334-382 | a swap that ran its five steps: what serves is what served before, less the models a stop of step 1 or 2 took effect on, plus the target; every target container is READY, and no other tracked one READY or STARTING |
| OrchestratorTheorems.ExactIff | gateway/orchestrator.py:521-580 | from any state, a completed swap leaves exactly the target serving iff each model serving before it is of the target, or was asked to stop and did, in step 1 or in the cleanup |
| OrchestratorTheorems.SwapExact | gateway/orchestrator.py:537-552 | from exactly the active profile's models a completed swap ends at exactly the target's, shared containers included, iff some stop of each outgoing model took effect |
| OrchestratorTheorems.RunExact | gateway/orchestrator.py:293-382 | over every run of successful calls with effective stops, skipped ones included, exactly the profile named active is up, and it is the last target |
| OrchestratorTheorems.SwitchExact | gateway/orchestrator.py:306-388 | one successful call from there ends with exactly its target up iff it was skipped or its stops took effect |
| OrchestratorTheorems.DeepCleanupIff | gateway/orchestrator.py:411-415 | the second teardown of a swap, raising or not, changes no container state, and changes what serves iff an outgoing model it comes to survived the first one and is stopped now |
| OrchestratorTheorems.TeardownStates | gateway/orchestrator.py:544-580 | after a teardown in which no stop raised, no container outside the target is READY or STARTING, and the outgoing models' containers are recorded STOPPED, whether or not their stops took effect |
| OrchestratorTheorems.WaitedStates | gateway/orchestrator.py:359-374 | every target container ends READY, after a time-out too |
| OrchestratorTheorems.StartedStates | gateway/orchestrator.py:356-357 | when all starts succeed exactly the target's containers are STARTING and its exec-managed models are added |
| OrchestratorFailures.SucceedsIff | gateway/orchestrator.py:328-388 | a swap succeeds iff no stop and no start raises and the wait does not, other than by time-out; only then is its profile active; if a stop raises the world is as the teardown left it |
| OrchestratorFailures.FailedStart | gateway/orchestrator.py:356-357 | a swap that fails in step 3 at model k: the name stands, the container of k is ERROR if its branch marks it and STARTING otherwise, those of the models before it are STARTING, all others as before, and none became READY |
| OrchestratorFailures.FailedWait | gateway/orchestrator.py:359-361 | a swap whose wait raises with k models healthy: the name stands, those are READY, the target's others STARTING, all others as before |
| OrchestratorFailures.TimedOut | gateway/orchestrator.py:362-374 | after a time-out the healthy are READY, and of the others only those still STARTING are promoted |
| OrchestratorFailures.TeardownRecords | gateway/orchestrator.py:544-580 | the state a teardown records for every container: STOPPED, STOPPING after a failed stop, PAUSED, or as it was |
| OrchestratorFailures.TeardownRaisesIff | gateway/orchestrator.py:544-568 | a teardown raises iff the stop of an outgoing model does, or that of the catalogue model of a container the second loop comes to |
| OrchestratorFailures.RaisedEarly | gateway/orchestrator.py:545-552 | a raise in the first loop: the outgoing models before it are recorded, nothing else is touched |
| OrchestratorFailures.RaisedLate | gateway/orchestrator.py:554-568 | a raise in the second loop leaves its container STOPPING and those not yet come to as they were |
| OrchestratorFailures.AskedIff | gateway/orchestrator.py:544-568 | in plain terms, the models a teardown sends a stop to |
| OrchestratorFailures.NoCleanup | gateway/orchestrator.py:345-354 | with enough memory, or none to check, the outcome does not depend on what a cleanup would do |
| OrchestratorFailures.CleanupCounts | gateway/orchestrator.py:404-415 | otherwise it does: a raise in it fails the swap, and what it stops is gone |
| OrchestratorTheorems.FailedSwapLeavesStray | gateway/orchestrator.py:384-386 | a failed swap keeps the old name, and the next successful swap leaves its half-started model serving in the shared container |
| OrchestratorTheorems.SilentStopLeavesStray | gateway/orchestrator.py:1072-1079 | a swap that reports success although a stop failed in silence leaves the outgoing model beside the target |
| Orchestrator.ContainerOrchestrator.StopCurrentModels | gateway/orchestrator.py:544-552 | sends a stop to the outgoing exec-managed models in order, by name and whatever container they share, records each STOPPED, and ends where one raises |
| Orchestrator.ContainerOrchestrator.StopTracked | gateway/orchestrator.py:554-580 | takes down the tracked containers that are up and not preserved, each to the state its kind and its failures call for, and ends where an exec-managed stop raises, leaving that one STOPPING |
| Orchestrator.ContainerOrchestrator.TeardownCurrent | gateway/orchestrator.py:521-580 | both loops of the teardown, the second only if the first did not raise |
| Orchestrator.ContainerOrchestrator.EnsureContainerRunning | gateway/orchestrator.py:431-490 | STARTING and serving, or ERROR as the branch that raised sets it |
| Orchestrator.ContainerOrchestrator.WaitAllReady | gateway/orchestrator.py:582-638 | the models that became healthy before the end are READY |
| Orchestrator.ContainerOrchestrator.SwitchProfile | gateway/orchestrator.py:293-388 | one call under the mutex: skip, or the five steps; the name is claimed on success only, and the swap flag is cleared |
| HarmonyTheorems.SpellingShape | harmony_stub/openai_harmony/__init__.py:21-33 | in every delimiter the less-than sign stands first only and the greater-than sign last only, and nothing is white |
| HarmonyTheorems.PrefixFree | harmony_stub/openai_harmony/__init__.py:232-234 | at most one special token can start at a place, so the order of the alternatives does not matter |
| HarmonyTheorems.SplitField | harmony_stub/openai_harmony/__init__.py:233-234 | a text that spells no special token and the delimiter after it are split off as they are: no match can reach over the seam |
| HarmonyTheorems.TokenizeMessage | harmony_stub/openai_harmony/__init__.py:229-270 | a printed message tokenizes to its own tokens, whatever follows |
| HarmonyTheorems.RunText | harmony_stub/openai_harmony/__init__.py:401-416 | however a text is cut into tokens, the parser ends up the same, last delta aside |
| HarmonyTheorems.RunBody | harmony_stub/openai_harmony/__init__.py:346-435 | from an opened message the parser reads back one message from its printed form |
| HarmonyTheorems.RunRendered | harmony_stub/openai_harmony/__init__.py:254-270 | the messages of a printed conversation are read one by one, whatever follows |
| HarmonyFields.RecipientIff | harmony_stub/openai_harmony/__init__.py:426-435 | the recipient comes back exactly when the role is not blank and has no separator itself, and the recipient is strip-stable |
| HarmonyFields.ChannelIff | harmony_stub/openai_harmony/__init__.py:366-371 | a channel comes back exactly when it contains no white space |
| HarmonyFields.FindAfter | harmony_stub/openai_harmony/__init__.py:429-431 | the separator is found where the role ends, although it could have overlapped role and recipient |
| HarmonyRoundTrip.RoundTrip | harmony_stub/openai_harmony/__init__.py:229-435 | render, tokenize, parse: one message for each, and recipients, contents and channels come back (no channel as final) iff every message is stable |
| HarmonyRoundTrip.ReadBackIff | harmony_stub/openai_harmony/__init__.py:254-270 | the condition for one message, as an equivalence |
| HarmonyRoundTrip.PromptRoundTrip | harmony_stub/openai_harmony/__init__.py:284-288 | with a generation prompt appended the same messages come back and the prompt waits in an open header |
| HarmonyFields.ChannelIs | harmony_stub/openai_harmony/__init__.py:366-371 | of any text: the channel is its first word, and "final" if it has none |
| HarmonyFields.RecipientIs | harmony_stub/openai_harmony/__init__.py:426-435 | of any header: the recipient is what stands, stripped, after the first separator |
| HarmonyMeaning.ParserMeans | harmony_stub/openai_harmony/__init__.py:346-435 | on every token stream the parser's messages are those read off the stream without a parser: one for each start token, cut at the next start or stop token, header and channel by the first channel and message tokens |
| HarmonyMeaning.StopCompletes | harmony_stub/openai_harmony/__init__.py:380-387 | after any stream, each of the three stop tokens leaves the parser waiting, no message open, no current channel or recipient, and as many messages as start tokens |
| HarmonyMeaning.StateIs | harmony_stub/openai_harmony/__init__.py:349-387 | the state after any stream, from the last start, message or stop token and the channel token since |
| HarmonyMeaning.CurrentFollows | harmony_stub/openai_harmony/__init__.py:364-387 | current channel and recipient are those of the open message in its content, and there are none while waiting |
| HarmonyMeaning.StoppedMessage | harmony_stub/openai_harmony/__init__.py:380-387 | a printed message that ends in any of the three stop tokens reads back |
| HarmonyPrinter.HeaderShown | harmony_stub/openai_harmony/__init__.py:258-263 | the header's reader has the role, "user" for a missing one, and the recipient if there is one |
| HarmonyPrinter.ContentShown | harmony_stub/openai_harmony/__init__.py:244-251 | lists print as their items in order, nesting does not show, an item prints as its text or as nothing |
| HarmonyPrinter.TokenizeSpells | harmony_stub/openai_harmony/__init__.py:229-241 | the tokens of any text spell that text |
| HarmonyStream.StreamInvariants | harmony_stub/openai_harmony/__init__.py:346-416 | on arbitrary token streams: messages plus the open one are the start tokens seen, completed messages never change, waiting means none open, header and channel mean one |
| HarmonyStream.RunShape | harmony_stub/openai_harmony/__init__.py:346-416 | the same from any well-formed parser state |
| HarmonyStream.DeltasIff | harmony_stub/openai_harmony/__init__.py:401-420 | a reader that appends the last delta after each token gets a message's content iff no channel token follows a delta inside it |
| HarmonyStream.CollectedLength | harmony_stub/openai_harmony/__init__.py:358-420 | content is never longer than what such a reader collects, and shorter exactly by what it reads twice |
| HarmonyStream.StaleDelta | harmony_stub/openai_harmony/__init__.py:358-362 | a stream whose content is read twice |
| HarmonyStream.StreamableParser.Process | harmony_stub/openai_harmony/__init__.py:346-416 | one token moves the parser's fields as the four-state machine does |
| HarmonyStream.StreamableParser.ApplyHeader | harmony_stub/openai_harmony/__init__.py:426-435 | recipient from the header, on the parser and on the open message |
| HarmonyStream.RenderMessagesToString | harmony_stub/openai_harmony/__init__.py:254-270 | the loop prints the conversation |
| HarmonyStream.TokenizeHarmonyString | harmony_stub/openai_harmony/__init__.py:229-241 | the loop over the split parts yields the tokens |
| ForensicsRoundTrip.LogRoundTrip | ops/crash_report.py:83-104 | after every history with crashes at any append, all_sessions gives exactly the started sessions in order, each with its rows in order under the header they were written with, clean iff stopped cleanly; no row is dropped and no session is guessed |
| ForensicsRoundTrip.StepKeeps | ops/node_forensics.py:386-456 | every call, whole or cut short, and every death keeps directory and history in step |
| ForensicsRoundTrip.RollQuiet | ops/node_forensics.py:386-406 | a roll-over tells the reader nothing wherever it is cut, and leaves today's file under this writer's header with its session open |
| ForensicsRoundTrip.CutWrite | ops/node_forensics.py:446-450 | a write that loses its text leaves what can be read unchanged |
| ForensicsTheorems.WritesHeader | ops/node_forensics.py:399-402 | a header appended, mid-session too, changes no session and heads what follows |
| ForensicsTheorems.WritesBoot | ops/node_forensics.py:405-416 | a start line opens one session; a resumed line after an unclean end continues the last one |
| ForensicsTheorems.WritesRow | ops/node_forensics.py:446-450 | a row lands at the end of the last session with its header |
| ForensicsTheorems.WritesStop | ops/node_forensics.py:579-580 | a stop line makes the last session clean |
| ForensicsTheorems.LoadFits | ops/crash_report.py:41-47 | the reader's header is the last header line, and heads the open segment: what the writer's own header test looks at |
| ForensicsTheorems.MergeGrows | ops/crash_report.py:93-103 | what the last session of the newest file gains, the merged report gains, across files too |
| LogText.LinesAppend | ops/node_forensics.py:408-412 | one write of a line adds exactly that line to the file |
| LogText.SplitJoin | ops/crash_report.py:70 | comma-free fields come back from their joined line |
| ForensicsMarks.SplitsAreMarked | ops/node_forensics.py:386-406 | in every history: where a file opens by resuming a session, the file before it ends that session with a roll-over marker |
| ForensicsMarks.HeadersAreNews | ops/node_forensics.py:394-402 | in every history each file begins with a header, and no header line repeats the one before it |
| ForensicsReader.RowsAccounted | ops/crash_report.py:59-79 | of any file: every row line is kept or counted as dropped, and every row kept is as wide as its header |
| ForensicsReader.SessionMarks | ops/crash_report.py:48-58 | of any file: the last announced session is clean iff a stop marker follows its start, keeps the last of them, is rolled iff a roll-over marker follows, and leaves the sessions before it as they were |
| ForensicsReader.MarksOfSession | ops/node_forensics.py:472-477 | of any file: start and stop of the verdict are those of its last session |
| ForensicsReader.SampleIs | ops/node_forensics.py:478-479 | of any file: the verdict's sample is its last line that is neither marker nor header |
| ForensicsReader.SampleOfSession | ops/node_forensics.py:472-479 | that sample belongs to the session reported iff one follows its start marker |
| ForensicsReader.AppendIs | ops/node_forensics.py:400-412 | a write on whatever day keeps the files in order, adds to that day's file and touches no other |
| ForensicsVerdict.ReadersAgree | ops/node_forensics.py:458-487 | on every log the writer can leave, a verdict is given iff the last session is not clean |
| ForensicsVerdict.ReadersIff | ops/crash_report.py:83-104 | on any directory: a verdict is given exactly when the last session is not clean, iff no file yields a session, or the newest that does holds a start marker, or its last session is clean exactly when the older files give no verdict |
| ForensicsVerdict.VerdictNamesFile | ops/node_forensics.py:467-486 | where that file holds a start marker, a verdict names it, the start of its last session and its last sample |
| ForensicsVerdict.LegacyMidnight | ops/crash_report.py:60-69 | a session split at midnight without markers and stopped cleanly the next day: one session with all its rows and a clean end for the post-mortem, dead for the start-up verdict |
| ForensicsVerdict.MidnightExample | ops/crash_report.py:60-69 | one such log in full, on which the readers disagree |
| ForensicsPruning.PrunedTail | ops/node_forensics.py:431-444 | without its oldest files a directory reads as the end of what it was: all later sessions unchanged, of the first at most its first segments gone |
| Forensics.CsvWriter.RollOver | ops/node_forensics.py:386-406 | appends exactly the marker, header and resumed line that are due, in order |
| Forensics.CsvWriter.HeaderMatches | ops/node_forensics.py:418-429 | whether the last header line of the file is this writer's |
| Forensics.CsvWriter.Write | ops/node_forensics.py:446-450 | rolls over when the day or the file demands it, then appends the line |
| Forensics.CsvWriter.StartSession | ops/node_forensics.py:414-416 | the same, and the line is remembered for later files |
| Forensics.LoadSessions | ops/crash_report.py:31-80 | the loop over one file's lines |
| Forensics.AllSessionsOf | ops/crash_report.py:83-104 | the loops over files and sessions, continuations joined |
| Forensics.PreviousSessionVerdict | ops/node_forensics.py:458-487 | newest file first, up to the first with a start marker |
| Proxy.StreamResponse | gateway/proxy.py:140-238 | the first attempt that is not silent decides: its outcome is all the client gets, after as many posts; if all are silent, one error after all retries |
| Proxy.NoReplay | gateway/proxy.py:157-160 | the client's chunks are those of the last post alone, earlier ones brought none; at most one error event, at the end |
| Proxy.CleanIff | gateway/proxy.py:162-224 | no error reaches the client iff some attempt completes with only silent ones before it, and then it got all its chunks |
| Proxy.ErrorIff | gateway/proxy.py:168-238 | which error event the client gets, if any: status and body of the rejection that decides, the interruption of the stream that decides, or the last reason when all attempts were silent |
| PrefixCache.CacheIsNewest | gateway/request_buffer.py:73-87 | after any history the ordered keys are the max_entries most recently used distinct keys, least recent first |
| PrefixCache.StackDistance | gateway/request_buffer.py:73-87 | a key is cached iff it was used and fewer than max_entries other keys were used since |
| PrefixCache.Inclusion | gateway/request_buffer.py:73-87 | a cache is contained in one with room for one more, fed the same history |
| PrefixCache.HitsAreUses | gateway/request_buffer.py:77-85 | the hit count of a cached key is its uses since its last insertion |
| PrefixCache.SystemPartsOne | gateway/request_buffer.py:58-63 | a further leading system message adds its text, and nothing if its content is not text |
| PrefixCache.SharedPrefix | gateway/request_buffer.py:58-70 | conversations with the same leading system messages share their key, whatever follows |
| PrefixCache.RadixPrefixCache.GetPrefixHash | gateway/request_buffer.py:54-89 | key, order, hit counts and excerpts after a call; without room, the KeyError of an empty popitem |
| Thermal.Govern | ops/thermal_guard.py:90-129 | the loop over the readings: final step and the caps applied |
| Thermal.StepUpNeedsWindow | ops/thermal_guard.py:118-125 | each step up, of one step, ends a window of at least RECOVER_S in which all valid readings were cool and no step happened |
| Thermal.WindowsDisjoint | ops/thermal_guard.py:118-125 | the windows of two steps up do not overlap |
| Thermal.StepUpRate | ops/thermal_guard.py:35-38 | the number of step-ups times RECOVER_S is at most the length of the run |
| Thermal.DangerRun | ops/thermal_guard.py:106-112 | k valid readings in the danger band, with failed polls between them, move step i to min(i + 2k, last) |
| Thermal.WarmRun | ops/thermal_guard.py:106-117 | readings in the warning band or above, failed polls between them, take the cap down one step each and two in the danger band, to the last at most |
| Thermal.WarnRun | ops/thermal_guard.py:113-117 | k valid readings between warning and danger move step i to min(i + k, last) |
| Thermal.MildRun | ops/thermal_guard.py:126-127 | between the cool threshold and the warning one nothing moves, and a valid reading ends a recovery under way |
| Thermal.CapsAre | ops/thermal_guard.py:94-124 | the caps asked for are the fastest and then, in order, one for each reading that changes the step; the last is the step held |
| Thermal.DangerRunIff | ops/thermal_guard.py:106-125 | whatever the thresholds, over a run of hot readings the cap is two steps further down for each valid one, to the last at most, iff none of them takes the recovery branch at the last step |
| Thermal.OverlapLifts | ops/thermal_guard.py:26-28 | overlapping thresholds with which three hot readings end above the last step |
| Thermal.CoolLifts | ops/thermal_guard.py:118-125 | a cool spell of RECOVER_S lifts a limited clock, failed polls within it or not |
| ShellQuote.OuterWord | gateway/orchestrator.py:1098-1108 | the built word reads, for every command, as exec -a with the tag followed by exactly that command |
| ShellQuote.OuterShell | gateway/orchestrator.py:1105-1108 | the whole background command reads as nohup bash -c with that one word and the redirection |
| ShellQuote.InnerShell | gateway/orchestrator.py:1096-1108 | the shell in the container gets back exactly the argument list that was quoted |
| ShellQuote.ReadQuoted | gateway/orchestrator.py:1096 | a quoted argument reads as that argument |

## Left out

- Docker, Kubernetes, SSH, HTTP, NVML and nvidia-smi: effects and outcomes are arguments of the model; `apply_cap` is taken to succeed.
- Futures and tasks: a future is known by the ticket of its request in a map, not as an object of its own; the asyncio scheduler is any interleaving of the steps.
- The clock: time-outs of the queue and of the swap wait are events that may happen at any time, the delays between retries are not modelled, and thermal readings carry their time.
- Admin and start-up swaps: part of the swap model (`SwapSpec`), kept out of the composed one, where they would race with admitted requests.
- Watchdog tick, stop and remove endpoints, adoption of running containers: they interleave outside the mutex, so the swap theorems hold between them only.
- Ordinary workloads: whether their process really stops is not tracked, only the recorded state; nor is which of a model's ranks survived a stop.
- Fleet.ServedByItsModels: assumes that swaps which did their work completed with effective stops; what the others leave is `OrchestratorTheorems.ExactIff`.
- Names: the theorems about runs of swaps assume that a model's name identifies it in the registry and that every target is registered.
- The list of primary and secondary models of a profile is one list.
- The pausing, removing and recreating of ordinary workloads inside `_ensure_container_running`: their container ends STARTING or ERROR, their process is not tracked.
- UTF-8: tokens carry whole characters; token numbers are not modelled.
- Missing role, recipient or channel is the empty string, which the source treats alike.
- Torn lines, clocks that go back, two writers at once, carriage returns in fields: excluded by the hypotheses of the log theorems.
- Forensics.CsvWriter.RollOver: does not delete old files; what deleting them costs a reader is `ForensicsPruning.PrunedTail`.
- Exceptions of a stream that are not connection errors, such as the client closing it, end it: the proxy loop does not see them.
- Proxy.StreamResponse: chunks are passed on unread; the scan for a usage chunk only logs.
- PrefixCache.RadixPrefixCache.GetPrefixHash: hashing is a function parameter; token estimates and times of use are not modelled.
- ShellQuote.InnerShell: the container name is taken to consist of characters that shells read literally; expansions, which no quoted text contains, make the modelled reading fail.
- The request buffer, router, identity, schemas, memory arithmetic and Ray status: look-ups, sums or code without callers.
