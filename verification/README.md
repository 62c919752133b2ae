# Verified models of MindRoom's live harness, pairing service and logo optimizer

Dafny models of the three parts of the repository that decide things rather than move data, and
proofs of what they are for. `dafny verify dfyconfig.toml` checks everything.

**Live harness** (`scripts/testing/fuzz_live_matrix.py`)

- *Traces.* The validator of live-fuzz traces (`TraceValidation` says what its ledger decides, `TraceValidator` is
  the code; `TraceRules` and `TraceAcceptance` say what acceptance is in terms of the trace alone, and prove the two the
  same) and the two generators (`TraceGeneration`, `ChaosGeneration`, `ChaosTraces`, `FuzzGeneration`). A generator and
  the validator keep different records; a simulation between them shows that every choice of every random draw gives an
  accepted trace. `TracePools` says what the generators' pools hold, `ChaosSchedule` when a chaos trace checkpoints and
  disturbs. `CleanupProbes` adds the probes that follow redactions.
- *Managed-stream audit.* `ManagedStreams` indexes raw events, `ManagedAudit` folds and reports, `AuditMeaning` says
  what a report means and `AuditReport` proves it, `AuditVerdicts` says what the two verdicts mean, `AuditPermanence`
  when a verdict of corruption is final, and `PeakStreams` relates the sweep to the common overlap.
- *Waiting.* `WaitBudget` is the adaptive wait as a machine over polls, and the loop that runs it.
- *Incremental structures.* `ReplyBodies` and `Revisions` compare running state with the newest surviving
  replacement (section "Event replacements" of the Matrix Client-Server API). `Supersession` builds and
  prunes proofs; `Sync` is the cursor that advances only past enumerated intervals.

**Pairing service** (`scripts/local_mindroom_provisioning_service.py`): `Pairing` is the state machine, one step per handler
body under the lock, `PairingAnswers` what its answers mean, step by step and over whole runs, `PairingRuns` what holds
in every run with restarts from disk, `PairingService` the class whose methods take those steps, and `RateLimit` the
sliding-window limiter.

**Logo optimizer** (`assets/logo/optimize.py`): `Svg` gives documents a meaning (what a paint reference resolves to, under
the template rule of section 13.2.2 of SVG 1.1), `SvgPasses` shows each pass keeps it, `SvgOptimizer` is the code of the
passes, `SvgFinish` runs them and proves what the finished document is like next to its source (`SvgOutcome`), and
`Decimals` covers numbered names and shortened numbers.

`Common` and `Sorting` hold options, facts about sequences, random draws, sorting and the order of events.

Where the code and its description disagree, the model follows the code:

- The harness fails at once on "evidence that cannot become valid with more sync", but an edit seen before its response
  is such evidence and can become valid (`AuditPermanence.CorruptionCanHeal`, with the exact condition in `LastingIff`).
- The two pruning loops of the supersession proofs are to keep unfinished owners indivisible; the second can cut one in
  two (`Supersession.RecordsCanBeCut`, with the exact condition in `IndivisibleIff`).
- A wait for one turn can report a wedge after less silence than the stall time (`WaitBudget.WedgesAreSilentIff`).
- The file is to carry sessions and connections over a restart, but a session that memory has marked expired can be
  pending in it. If the wall clock is set back across the restart, the session is pending again for an earlier reading
  (`PairingRuns.ClocksSetBackShowRestarts`, with the exact condition in `RestartInvisibleIff` and, for the end of any run,
  in `RestartAfterRunIff`). That an expired session never comes back holds under the same condition
  (`ExpiredAfterRunIff`); that a connected one stays needs none (`ConnectedIsFinal`). Requests that only overtake one
  another within a process, because the handlers read the clock before they take the lock, do no harm (`RestartRefinement`).

## Model

| member | source | states |
|---|---|---|
| `TraceValidator.Validate` | scripts/testing/fuzz_live_matrix.py:318-346 | accepts a trace exactly when every batch keeps the rules that TraceRules states of the batches before it alone: new ids, one reply per lane, targets that exist and whose answers can still come, the author's own edits, redactions and retries, a cold restart only when every message was checkpointed or redacted since, probes for redacted sources of their thread, the saturation shape, and MindRoom up in the end |
| `TraceValidator.ValidationState.ValidateBatch` | scripts/testing/fuzz_live_matrix.py:410-443 | accepts exactly the batches that keep the rules given the batches the state stands for, and afterwards stands for those and one more |
| `TraceValidator.ValidationState.ReserveIds` | scripts/testing/fuzz_live_matrix.py:584-594 | fails exactly when an operation id was used before, in the trace or in the batch, and otherwise records all of them |
| `TraceValidator.ValidationState.RegisterBatchEvents` | scripts/testing/fuzz_live_matrix.py:476-496 | the events, authors and responses a batch adds, and the responses its redactions take out of use |
| `TraceValidator.ValidationState.ValidateLifecycleOperation` | scripts/testing/fuzz_live_matrix.py:521-551 | a lifecycle step is accepted exactly in the states it belongs to, and a checkpoint settles the usable responses; said of the batches: a start exactly when MindRoom is down, a cold restart only when nothing is pending |
| `TraceValidator.ValidateReplyUniqueness` | scripts/testing/fuzz_live_matrix.py:445-455 | the set-size test means: no two messages of a batch draw a reply in the same lane |
| `TraceValidator.ValidateTargetUniqueness` | scripts/testing/fuzz_live_matrix.py:457-474 | the set-size test means: no two edits, and no two redactions, of a batch share a target |
| `TraceValidator.ValidationState.ValidateRedactionRaces` | scripts/testing/fuzz_live_matrix.py:498-519 | the two intersected sets are disjoint exactly when no operation of the batch targets the unsettled response of a message some redaction of the batch targets |
| `TraceValidator.ValidationState.ValidateMutation` | scripts/testing/fuzz_live_matrix.py:553-582 | accepts exactly the mutations the rules allow, said of the batches before: the target was put or answers a message sent, is not cut off, is sure to be answered while MindRoom is down, and in chaos traces an edit, redaction or retry comes from the client that put its target |
| `TraceValidator.ValidateInterruptionPlacement` | scripts/testing/fuzz_live_matrix.py:608-623 | a restart or crash is the only one of its batch and comes last, and some operation of the batch owes a reply |
| `TraceValidator.ValidateCleanupProbes` | scripts/testing/fuzz_live_matrix.py:348-371 | a probe names only sources of its own thread that were redacted in earlier batches, in any profile |
| `TraceValidator.ValidateSaturationShape` | scripts/testing/fuzz_live_matrix.py:373-408 | the saturation trace: every thread starts in parallel, then each phase chains every thread's messages |
| `TraceMeaning.NoForwardReference` | scripts/testing/fuzz_live_matrix.py:553-582 | in a valid trace every target was created in an earlier batch, never in the same or a later one |
| `TraceMeaning.IdsAreUnique` | scripts/testing/fuzz_live_matrix.py:584-594 | in a valid trace no two operations share an id, wherever they stand |
| `TraceAcceptance.AcceptedIff` | scripts/testing/fuzz_live_matrix.py:318-623 | the validator's rules over its ledger are, for every scenario, the rules of the trace alone |
| `TraceRules.KeepingIff` | scripts/testing/fuzz_live_matrix.py:410-606 | batch by batch acceptance is keeping the rules, and the ledger then holds exactly what happened: who put what, what was sent, what is sure to be answered, what was cut off, and whether MindRoom is up |
| `TraceRules.WhatWasAnswered` | scripts/testing/fuzz_live_matrix.py:476-496 | one more batch of a chaos trace settles exactly the messages a checkpoint finds not cut off, and cuts off exactly the redacted ones that were not settled |
| `TraceRules.ColdRestartMeans` | scripts/testing/fuzz_live_matrix.py:521-551 | all responses are settled or out of use exactly when every message was checkpointed or redacted after it was sent |
| `TraceRules.ProbesIff` | scripts/testing/fuzz_live_matrix.py:348-371 | probes are accepted exactly when each names sources that an earlier batch redacted, from its own thread, edits counted with the message they edit |
| `TraceAcceptance.SaturationIff` | scripts/testing/fuzz_live_matrix.py:373-408 | the saturation shape: first the hot thread alone, then one operation for every other thread in each batch, each answering the last event of its thread |
| `ChaosTraces.ChaosScenario` | scripts/testing/fuzz_live_matrix.py:2013-2059 | for every valid tuning and every sequence of random choices: the generator ends, the trace passes the validator, has exactly the asked number of mutations, aims every operation within its own thread, never edits, redacts or retries what an earlier batch redacted, and is on plan: no batch is longer than allowed, batches without a checkpoint or without a disturbance hold no more mutations than the intervals allow, every checkpoint and disturbance has its reason, and an outage is a stop, its batches, a start and a checkpoint |
| `ChaosGeneration.ChoicePasses` | scripts/testing/fuzz_live_matrix.py:1854-1927 | whatever operation is drawn, the validator accepts it, while the generator's bookkeeping simulates the validator's |
| `ChaosGeneration.NoNewRace` | scripts/testing/fuzz_live_matrix.py:1836-1851 | a drawn operation never races a redaction of its batch for the response it targets |
| `ChaosGeneration.SameSuppression` | scripts/testing/fuzz_live_matrix.py:1930-1989 | after redactions, generator and validator agree on which responses are settled and which unusable |
| `ChaosGeneration.BatchKeepsSimulation` | scripts/testing/fuzz_live_matrix.py:1930-1989 | an accepted batch keeps the settled, unusable and author records of both sides equal |
| `ChaosGeneration.AppendedLifecycle` | scripts/testing/fuzz_live_matrix.py:1992-2010 | a lifecycle step is accepted and keeps the simulation; at a checkpoint both sides settle the same responses |
| `ChaosTraces.ChaosBuild.AppendBatch` | scripts/testing/fuzz_live_matrix.py:1930-1989 | one appended batch of at most maxBatchSize mutations keeps the trace accepted, counts its mutations, and leaves MindRoom as it was |
| `ChaosTraces.ChaosBuild.AppendLifecycle` | scripts/testing/fuzz_live_matrix.py:1992-2010 | a warm restart is one step, a cold one follows a checkpoint, an outage is a stop, up to downtimeBatches batches, a start and a checkpoint; the trace stays accepted with MindRoom running |
| `ChaosSchedule.WorkKeepsPlan` | scripts/testing/fuzz_live_matrix.py:2047-2056 | a batch of work keeps the plan while no checkpoint is overdue and no disturbance is due: the bounds on stretches without them follow |
| `ChaosSchedule.OutageKeepsPlan` | scripts/testing/fuzz_live_matrix.py:1992-2010 | an outage keeps both bounds although its batches come while a checkpoint may be almost overdue |
| `ChaosSchedule.FreeIsSince` | scripts/testing/fuzz_live_matrix.py:2030-2056 | the counter since the last checkpoint or disturbance bounds the mutations of every stretch without one |
| `FuzzGeneration.LiveScenario` | scripts/testing/fuzz_live_matrix.py:1704-1763 | for every sequence of choices the trace passes the validator, with exactly the asked number of mutations and no batch longer than allowed; every operation aims within its own thread, nothing an earlier batch redacted is edited, redacted or retried; a batch is interrupted exactly when the trace with it reaches one more interval than it has had interruptions, each interruption ends a batch that owes a reply, restarts and crashes alternate, and for an interval no shorter than a batch there are steps / interval of them |
| `FuzzGeneration.GenerateBatch` | scripts/testing/fuzz_live_matrix.py:1628-1666 | a generated batch has the asked size, ids in sequence, and only targets that fit the state, with at most one reply, edit and redaction each; edits, redactions and retries leave alone what was redacted before |
| `FuzzGeneration.Promote` | scripts/testing/fuzz_live_matrix.py:1669-1701 | before an interruption some operation owes a reply: the batch as it was, or with just its first operation turned into a message of its thread |
| `FuzzGeneration.ChoicePasses` | scripts/testing/fuzz_live_matrix.py:1563-1599 | whatever operation is drawn, the validator accepts it |
| `FuzzGeneration.AppendedAccepted` | scripts/testing/fuzz_live_matrix.py:1704-1763 | a drawn batch, interrupted or not, extends an accepted trace to an accepted one and counts as its mutations and interruption |
| `FuzzGeneration.PaceTotal` | scripts/testing/fuzz_live_matrix.py:1704-1763 | the running threshold takes floor(generated / interval) interruptions when the interval covers a batch, and never more |
| `TraceGeneration.FitsOps` | scripts/testing/fuzz_live_matrix.py:1602-1625 | updating the generator's pools keeps every pooled reference known to the validator |
| `TraceGeneration.GenerationState.Update` | scripts/testing/fuzz_live_matrix.py:1602-1625 | the pools after a batch are those of its operations one by one |
| `TraceGeneration.SameAuthors` | scripts/testing/fuzz_live_matrix.py:476-496 | generator and validator record the same author for every event |
| `TracePools.PoolsReadStep` | scripts/testing/fuzz_live_matrix.py:1602-1625 | thread by thread the pools hold exactly the messages, responses, edits and reactions of the trace, and the redacted set exactly what it redacts |
| `TracePools.PooledAims` | scripts/testing/fuzz_live_matrix.py:1563-1599 | what is drawn from the pools refers to something of its own thread, of the kind its operation can refer to, that was there before |
| `CleanupProbes.WithCleanupProbes` | scripts/testing/fuzz_live_matrix.py:9445-9481 | a valid trace stays valid; with nothing redacted it is unchanged, else it gains one batch of probes, between two checkpoints in chaos: for every thread with redacted sources, in thread order, one message to its root by the client that began it, with the next free ids, naming exactly those sources, each once |
| `CleanupProbes.RedactedMeansTargeted` | scripts/testing/fuzz_live_matrix.py:348-371 | the log of sources calls a source redacted exactly when some redaction of the trace targets it |
| `CleanupProbes.CollectRedactions` | scripts/testing/fuzz_live_matrix.py:9447-9460 | one scan groups the redacted sources by thread as the validator's log does, and finds one more than the largest id |
| `PairingRuns.RestartRefinement` | scripts/local_mindroom_provisioning_service.py:413-476 | for every run from an empty service in which no clock reading is older than one a restart has put behind it, a service restarted from disk anywhere answers every request as one that never restarted; between restarts requests may be served out of clock order |
| `PairingRuns.RestartsAreInvisible` | scripts/local_mindroom_provisioning_service.py:413-476 | the same from any state in which disk and memory agree up to expiry |
| `PairingRuns.RestartInvisibleIff` | scripts/local_mindroom_provisioning_service.py:431-476 | a restart is invisible to everyone who asks at some time or later, in any clock order and with any later restarts, exactly when every session that memory marks and the file does not has expired by then |
| `PairingRuns.RestartAfterRunIff` | scripts/local_mindroom_provisioning_service.py:431-476 | that condition decides it after every run from an empty service, whatever its clocks and restarts |
| `PairingRuns.WritesOrFlips` | scripts/local_mindroom_provisioning_service.py:413-421 | after any request the file is what memory would be saved as, or neither has changed but for pending sessions seen to be overdue |
| `PairingRuns.LoadUndoesPersist` | scripts/local_mindroom_provisioning_service.py:431-476 | loading what was saved gives back the same memory, rebuilt hash index included |
| `PairingRuns.HandleSeesView` | scripts/local_mindroom_provisioning_service.py:530-532 | expiring overdue sessions beforehand changes no answer and no outcome of a request |
| `PairingRuns.HandleKeepsInvariant` | scripts/local_mindroom_provisioning_service.py:711-862 | every request keeps: unique ids, at most one pending session a user, a right hash index, connected sessions and connections one to one with the same owner, namespaces distinct and of one length |
| `PairingRuns.RunKeepsSynced` | scripts/local_mindroom_provisioning_service.py:413-476 | in every run, restarts included and clocks in any order, disk and memory agree up to expiry at the latest clock reading |
| `PairingRuns.ConnectedIsFinal` | scripts/local_mindroom_provisioning_service.py:781-829 | in every run, whatever its clocks, a session keeps its id and user, and a connected one stays exactly as it is |
| `PairingRuns.ExpiredAfterRunIff` | scripts/local_mindroom_provisioning_service.py:431-476 | after every run from an empty service, whatever its clocks and restarts: what has expired at some time stays expired through whatever is asked from then on, restarts included, exactly under the condition of RestartAfterRunIff |
| `PairingRuns.ExpiredIsFinal` | scripts/local_mindroom_provisioning_service.py:723-740 | enough for that along a run: a session that counts as expired for every reading still possible keeps doing so, in every run in which no reading is older than one a restart has put behind it |
| `PairingRuns.CodeCompletesOnce` | scripts/local_mindroom_provisioning_service.py:790-820 | once a code has completed, completing with the session it finds is refused with 409, whatever happened in between and whatever the clocks |
| `PairingRuns.ConnectedSessionsReportTheirConnection` | scripts/local_mindroom_provisioning_service.py:770-777 | pair_status of a connected session answers connected, with the connection it was completed with, of the same user |
| `PairingRuns.UsernameHasOneOwner` | scripts/local_mindroom_provisioning_service.py:505-527 | no username is permitted for two connections |
| `PairingRuns.UsernamesNeverCollide` | scripts/local_mindroom_provisioning_service.py:250-256 | the same in every run from an empty state, through pairing, saving and reloading, whatever the clocks |
| `PairingRuns.ClocksSetBackShowRestarts` | scripts/local_mindroom_provisioning_service.py:237-238 | a run in which a late reading expires a session in memory only: a restart then stays invisible to an earlier reading exactly when that is not earlier at all |
| `PairingRuns.ReplyTellsWriting` | scripts/local_mindroom_provisioning_service.py:711-927 | a handler writes the file, with all of its memory, exactly when it answers with one of its outcomes of success, or that the client is not configured |
| `PairingService.ProvisioningService.StartPair` | scripts/local_mindroom_provisioning_service.py:711-748 | the method on the service's dictionaries does what the machine's step says, for the rate limiter's verdict on its own key with limit 10, and keeps the class invariant: the run-level invariant, and file and memory in agreement |
| `PairingService.ProvisioningService.PairStatus` | scripts/local_mindroom_provisioning_service.py:751-778 | the same for pair_status, with limit 60 |
| `PairingService.ProvisioningService.PairComplete` | scripts/local_mindroom_provisioning_service.py:781-829 | the same for pair_complete, with limit 20 for each host |
| `PairingService.ProvisioningService.ListConnections` | scripts/local_mindroom_provisioning_service.py:832-841 | the same for the list of connections, with limit 60 |
| `PairingService.ProvisioningService.RevokeConnection` | scripts/local_mindroom_provisioning_service.py:844-862 | the same for revocation, with limit 20 |
| `PairingService.ProvisioningService.RegisterAgent` | scripts/local_mindroom_provisioning_service.py:865-903 | the same for agent registration; the limiter is asked, with limit 60 for the client's id, exactly for clients whose secret belongs to a connection not revoked |
| `PairingService.ProvisioningService.GoogleClient` | scripts/local_mindroom_provisioning_service.py:906-927 | the same for the OAuth client, with a key and limit 60 of its own |
| `PairingService.ProvisioningService.LoadStateFromDisk` | scripts/local_mindroom_provisioning_service.py:431-476 | loading rebuilds the state from the saved file, keeps the class invariant, and forgets the rate limiter's buckets |
| `PairingAnswers.RegisterAgentMeans` | scripts/local_mindroom_provisioning_service.py:865-903 | a client is permitted a username exactly when it is not limited and some connection has its id and the hash of its secret, is not revoked, and owns the username; the lemma names the answer to every other request and what changes |
| `PairingAnswers.GoogleClientMeans` | scripts/local_mindroom_provisioning_service.py:906-927 | the same for the OAuth client, which answers 503 when it is not configured |
| `PairingAnswers.StartPairMeans` | scripts/local_mindroom_provisioning_service.py:711-748 | a new code replaces the user's pending ones: just those and the overdue ones expire, and just one session is added |
| `PairingAnswers.PairStatusMeans` | scripts/local_mindroom_provisioning_service.py:751-778 | the owner of a session learns expired, pending or connected exactly when it is |
| `PairingAnswers.PairStatusRefuses` | scripts/local_mindroom_provisioning_service.py:751-778 | 429, 400 and 404 exactly for the limited, the nameless, and those who own no such session |
| `PairingAnswers.PairCompleteMeans` | scripts/local_mindroom_provisioning_service.py:781-829 | the last session started with a code of that hash completes exactly when it is pending and not overdue, with just one connection of its owner added; 410 and 409 exactly when it has expired or is connected |
| `PairingAnswers.PairCompleteRefuses` | scripts/local_mindroom_provisioning_service.py:781-829 | 429 and 404 exactly for the limited and for codes that no session has |
| `PairingAnswers.ListConnectionsMeans` | scripts/local_mindroom_provisioning_service.py:832-841 | exactly the user's connections, in order |
| `PairingAnswers.RevokeConnectionMeans` | scripts/local_mindroom_provisioning_service.py:844-862 | users revoke exactly connections of their own, and nothing else changes |
| `PairingAnswers.SecretsAdmit` | scripts/local_mindroom_provisioning_service.py:566-584 | in every run with restarts, whoever is permitted presents a secret with the hash of the one returned when that connection was completed, and for names of its namespace only |
| `PairingAnswers.RevokedForGood` | scripts/local_mindroom_provisioning_service.py:844-862 | in every run with restarts, once a connection was revoked no later request is permitted for it |
| `PairingAnswers.CodesAreHandedOut` | scripts/local_mindroom_provisioning_service.py:781-829 | in every run with restarts, a pairing completes only for a code with the hash of one handed out before to the owner, and before it runs out |
| `RateLimit.RateLimiter.Enforce` | scripts/local_mindroom_provisioning_service.py:547-564 | refuses exactly when the whole history, not only the bucket, holds the limit's number of accepted requests in the closed last window; keeps every window within the limit, and logs the key, limit, time and verdict of every call |
| `RateLimit.RateLimiter.Cleanup` | scripts/local_mindroom_provisioning_service.py:535-544 | drops exactly the stale buckets |
| `RateLimit.MinuteCounts` | scripts/local_mindroom_provisioning_service.py:547-564 | the count that decides is the number of requests accepted at most a minute before |
| `RateLimit.SweptMeans` | scripts/local_mindroom_provisioning_service.py:535-544 | a bucket survives a sweep, unchanged, exactly when something in it is at most an hour old |
| `RateLimit.StaleIsForgettable` | scripts/local_mindroom_provisioning_service.py:535-544 | a stale bucket can be forgotten without changing any decision |
| `RateLimit.AcceptingStaysBounded` | scripts/local_mindroom_provisioning_service.py:547-564 | accepting below the limit leaves no closed window with more than the limit |
| `SvgFinish.OptimizeDocument` | assets/logo/optimize.py:112-138 | for a document with unique ids and no templates: if it uses none of the names given out, every paint reference of the body paints the same after all passes, at every depth, and ids stay unique; those names are among one short name for each generated id and the numbered template names, all of them occur in the result, and every other id of the result is one of the source; the body of the result reaches every named definition, no two definitions stem from gradients that looked the same, no generated name and no trailing zero is left, and no two linear gradients spell out the same stops unless the source spelled a number in two ways; in the documents' own terms: definitions stay in order, everything without a name stays, what is no gradient is told again word for word, no kept gradients look the same, no name has a generated part, no decimal ends in a zero, and linear gradients have different stops of their own |
| `SvgFinish.ClashesShow` | assets/logo/optimize.py:118-130 | a document that already uses a short name, whose painting the renaming changes |
| `SvgFinish.LateTwins` | assets/logo/optimize.py:132-138 | two gradients whose stops differ in spelling only: different when stops are shared, the same once they are shortened |
| `SvgFinish.SharedIsReachable` | assets/logo/optimize.py:80-94 | sharing stops leaves every named definition within reach of the body, the new templates included |
| `SvgOptimizer.SvgDocument.DeduplicateGradients` | assets/logo/optimize.py:97-109 | kept gradients all look different, everything dropped has an alias that looks the same, and paintings stay |
| `SvgOptimizer.FindUsed` | assets/logo/optimize.py:58-70 | the worklist ends and finds exactly the definitions some chain of references from the body reaches |
| `SvgOptimizer.SvgDocument.RemoveUnused` | assets/logo/optimize.py:58-70 | what stays is exactly what the body reaches, in order, and whatever has no name; paintings stay |
| `SvgOptimizer.References` | assets/logo/optimize.py:47-55 | finds exactly the names a definition refers to, in attributes, stops and template links |
| `SvgOptimizer.SvgDocument.ShareStops` | assets/logo/optimize.py:80-94 | afterwards no two linear gradients spell out the same stops, borrowed stops are the gradient's own, every template lends to some gradient, and ids stay unique and paintings the same unless a template takes a name in use |
| `SvgOptimizer.SvgDocument.GroupStops` | assets/logo/optimize.py:82-86 | the table lists, for each sequence of stops, exactly the linear gradients that have it |
| `SvgOptimizer.SvgDocument.RenameGenerated` | assets/logo/optimize.py:120-130 | short names, numbered from zero and all different, go to exactly the generated ids; ids stay unique and paintings the same unless a short name was in use |
| `SvgOptimizer.SvgDocument.ShortenScalars` | assets/logo/optimize.py:132-138 | shortening scalar attributes changes no painting |
| `SvgOptimizer.SvgDocument.Rewrite` | assets/logo/optimize.py:35-44 | every reference of the document is redirected, and nothing else changes |
| `Svg.SamePaint` | assets/logo/optimize.py:112-138 | documents whose definitions correspond paint the same, although definitions may refer to one another in circles |
| `SvgPasses.DeduplicationCorresponds` | assets/logo/optimize.py:97-109 | each name leads to equal content after duplicates are redirected |
| `SvgPasses.SweepCorresponds` | assets/logo/optimize.py:58-70 | dropping what a closed set leaves out changes nothing inside the set |
| `SvgPasses.SharingCorresponds` | assets/logo/optimize.py:80-94 | a gradient that takes its stops from a template amounts to what it was |
| `SvgPasses.RenamingCorresponds` | assets/logo/optimize.py:120-130 | a renaming that keeps names apart keeps what each name amounts to, template chains included |
| `Decimals.ShortenTwice` | assets/logo/optimize.py:132-137 | what is left of a decimal has nothing more to drop |
| `Decimals.ShortenKeepsValue` | assets/logo/optimize.py:132-137 | dropping trailing zeros and a bare point keeps the number exactly |
| `Supersession.SupersessionObserver.ObserveSupersession` | scripts/testing/fuzz_live_matrix.py:5862-5901 | every surviving proof reaches its completed anchor through surviving proofs, with rising timestamps in one room and thread by one sender; no proved source has a completed record; and what each loop keeps, both ways; every surviving proof still has, read off the world itself, both sources settled and quiet, the older left off, its records clean and covered, and an answered anchor |
| `Supersession.LinkChains` | scripts/testing/fuzz_live_matrix.py:5862-5883 | each source gets the link of its latest decision that proves one, judged against the final proofs, and builds on earlier entries only |
| `Supersession.LatestLink` | scripts/testing/fuzz_live_matrix.py:5868-5883 | the decision that counts is the last that proves a link |
| `Supersession.LinkIsSound` | scripts/testing/fuzz_live_matrix.py:6119-6202 | a proved link leads forward in time, within one room, thread and sender, to a completed anchor |
| `Supersession.LinkMeans` | scripts/testing/fuzz_live_matrix.py:6119-6202 | a link is proved exactly when both sources are settled as the rooms show them with no edit under way, no pending delivery is for their thread or room at large, under their or their anchors' ids, or over their responses, the older was left off, and the newer was answered or is linked itself |
| `Supersession.LatestMeans` | scripts/testing/fuzz_live_matrix.py:5868-5883 | a source gets what the newest proving decision for a later source of its chain says, and nothing exactly when none proves anything |
| `Supersession.DropDivided` | scripts/testing/fuzz_live_matrix.py:5884-5893 | a source goes only while its record owns an unproved source or needs cleaning; when sources agree on their records it goes exactly then, and what is left is indivisible |
| `Supersession.DropBroken` | scripts/testing/fuzz_live_matrix.py:5894-5899 | one pass is the fixpoint: what is left is exactly what still has a path to its anchor |
| `Supersession.PathsLeadForward` | scripts/testing/fuzz_live_matrix.py:6119-6202 | along a path of links sources get later, keep room, thread and sender, and share the anchor |
| `Supersession.SurvivorsReachTheirAnchor` | scripts/testing/fuzz_live_matrix.py:5862-5901 | what survives both prunings still has its whole path |
| `Supersession.RecordsCanBeCut` | scripts/testing/fuzz_live_matrix.py:5884-5899 | the last loop can cut an indivisible record in two: a concrete chain of four sources |
| `Supersession.IndivisibleIff` | scripts/testing/fuzz_live_matrix.py:5884-5899 | the result is indivisible exactly when no record has one source whose links lead over a divided source and another whose links do not |
| `ManagedStreams.IndexEvents` | scripts/testing/fuzz_live_matrix.py:951-1002 | the loop over events builds the index that the roles of the events define: originals by source, valid edits by response, and the invalid ones |
| `ManagedStreams.ValidatedReplacements` | scripts/testing/fuzz_live_matrix.py:928-948 | separates edits of responses from malformed and orphaned ones |
| `AuditReport.AuditManagedStreamEvents` | scripts/testing/fuzz_live_matrix.py:1063-1111 | the report means, field by field and in terms of the events alone, what AuditMeaning says: who is missing, answered twice or unexpected, which relations and replacements are bad, how often each stream completed and what its newest event shows, and the true shortest, longest, common and peak activity |
| `AuditReport.FoldIsRight` | scripts/testing/fuzz_live_matrix.py:1005-1034 | a source is folded exactly when it has one answer, and its fold tells how often the thread of that answer completes, what its newest event shows, and when it was active |
| `AuditReport.StrayMeans` | scripts/testing/fuzz_live_matrix.py:928-1002 | a replacement is invalid exactly when it revises no answer: no ids, unusable content, or an unknown target |
| `AuditVerdicts.DuplicatesNameResponses` | scripts/testing/fuzz_live_matrix.py:1077-1086 | a finding of duplicates names an expected source and exactly the ids of its responses |
| `ManagedAudit.FoldMeans` | scripts/testing/fuzz_live_matrix.py:1005-1034 | a folded source completed exactly once and last exactly when one event of its thread completes it after all others; then it finishes no earlier than it starts |
| `AuditVerdicts.ReadyIff` | scripts/testing/fuzz_live_matrix.py:7361-7372 | ready means: each expected source has one response whose thread completes once, last, and no event is stray or invalid |
| `AuditVerdicts.ReadyPairsSources` | scripts/testing/fuzz_live_matrix.py:7361-7372 | a ready report pairs every expected source with a response of its own |
| `AuditVerdicts.ReadyStreamsEndLater` | scripts/testing/fuzz_live_matrix.py:1005-1034 | in a ready report every stream finishes no earlier than it starts |
| `AuditVerdicts.CorruptIff` | scripts/testing/fuzz_live_matrix.py:7375-7392 | the harness fails at once exactly when the events hold two originals, a stray or invalid event, or a thread completed twice |
| `AuditPermanence.CorruptionStays` | scripts/testing/fuzz_live_matrix.py:928-1002 | corruption stays in every larger set that adds no target of an edit already there |
| `AuditPermanence.CorruptionCanHeal` | scripts/testing/fuzz_live_matrix.py:7375-7392 | an edit seen before its response is reported as corruption, and the response repairs it |
| `AuditPermanence.LastingIff` | scripts/testing/fuzz_live_matrix.py:7375-7392 | corruption is final exactly when it is not about orphaned edits, or when the orphans cannot all belong to responses still missing: a taken id, two completions for one response, or more responses than unanswered sources |
| `PeakStreams.PeakManagedStreams` | scripts/testing/fuzz_live_matrix.py:1037-1050 | the sweep over sorted boundaries finds the largest number of streams active at any time |
| `PeakStreams.PeakIsFullIff` | scripts/testing/fuzz_live_matrix.py:1037-1060 | all streams are active at once exactly when their common interval is not empty |
| `PeakStreams.OverlapBoundsEveryStream` | scripts/testing/fuzz_live_matrix.py:1198-1214 | a common overlap of S > 0 means every stream lasts at least S and the peak is full |
| `WaitBudget.ExactReplyOracle.WaitWithBudget` | scripts/testing/fuzz_live_matrix.py:5137-5206 | the wait ends within four budgets, one stall and five polls, and each outcome says, if and only if, what was heard by its last poll: complete and quiet, dead, a wrong reply, complete but never quiet, or silent for the stall time or past its last window with sources outstanding |
| `WaitBudget.OutcomeMeans` | scripts/testing/fuzz_live_matrix.py:5137-5206 | for every trial the outcome of the machine means the same: who was answered when, apart from its state |
| `WaitBudget.ExactReplyOracle.SyncOnce` | scripts/testing/fuzz_live_matrix.py:5248-5349 | the replies a poll brings are recorded one by one; only a first reply to an expected source is progress |
| `WaitBudget.WaitsEnd` | scripts/testing/fuzz_live_matrix.py:5137-5206 | whatever arrives, every wait ends within four budgets, one stall and five polls |
| `WaitBudget.TimeoutsAreExplained` | scripts/testing/fuzz_live_matrix.py:5172-5206 | every window but the last shrank the outstanding set; a timeout before the stall time comes at a deadline, and either its window saw no reply or all three extensions were used |
| `WaitBudget.WedgesAreSilentIff` | scripts/testing/fuzz_live_matrix.py:5172-5206 | every reported wedge was silent for the stall time exactly when the budget is no shorter than the stall time |
| `WaitBudget.LimitCoversStall` | scripts/testing/fuzz_live_matrix.py:2715-2723 | that holds for two or more turns, and for one turn exactly when floor and settle time make up for it |
| `WaitBudget.SilenceTimesOutEarly` | scripts/testing/fuzz_live_matrix.py:5172-5206 | otherwise one silent poll is reported as a wedge too early |
| `WaitBudget.OutstandingShrinks` | scripts/testing/fuzz_live_matrix.py:5103-5109 | without wrong replies the outstanding set only shrinks, and strictly when a first reply arrives |
| `ReplyBodies.ReplyTracker.IngestEvent` | scripts/testing/fuzz_live_matrix.py:5270-5319 | what is taken in comes from the event, in order, each id once, and whatever is bundled into a message of the agent is known; every reply whose original came then shows the newest text that belongs to it; a repeated event changes nothing |
| `ReplyBodies.EventIsTaken` | scripts/testing/fuzz_live_matrix.py:5270-5319 | nothing taken in before is lost, and the id of the event, however it is nested, is known afterwards |
| `ReplyBodies.FoldHolds` | scripts/testing/fuzz_live_matrix.py:5351-5378 | the entry of a reply is always that of the newest message accepted for it |
| `ReplyBodies.FoldShows` | scripts/testing/fuzz_live_matrix.py:5351-5378 | every reply whose original came shows the newest of it and the edits that came after it, and no other reply shows anything |
| `ReplyBodies.CanonicalResponse` | scripts/testing/fuzz_live_matrix.py:4800-4845 | the scan of all messages finds the newest same-room replacement, or else the original: edits before originals, then by time, then by id |
| `ReplyBodies.BodiesAgreeIff` | scripts/testing/fuzz_live_matrix.py:5351-5378 | the running body is the canonical one exactly when the newest replacement arrived after the original and no accepted edit from another room is newer |
| `ReplyBodies.BodiesAgree` | scripts/testing/fuzz_live_matrix.py:5270-5378 | it is, for same-room edits that arrive after an original with a text, in any order |
| `ReplyBodies.ArrivalOrderIsIrrelevant` | scripts/testing/fuzz_live_matrix.py:5486-5488 | the order in which edits arrive makes no difference |
| `ReplyBodies.EarlyEditsAreLost` | scripts/testing/fuzz_live_matrix.py:5367-5369 | an edit that arrives before its original is lost to the running body, but not to the canonical one |
| `Revisions.RevisionTracker.Push` | scripts/testing/fuzz_live_matrix.py:9191-9205 | the stack, the current marker and the registers are what the history with the new edit says |
| `Revisions.RevisionTracker.Pop` | scripts/testing/fuzz_live_matrix.py:9207-9232 | the same for a redaction; redacting an edit already reverted or never registered changes nothing |
| `Revisions.CurrentIsLastSurvivor` | scripts/testing/fuzz_live_matrix.py:9191-9232 | for every history the current marker is that of the last edit not redacted since, and the original's when there is none |
| `Revisions.ResolveMarker` | scripts/testing/fuzz_live_matrix.py:6391-6413 | the audit finds the newest edit that remains, or the original |
| `Revisions.StackMatchesAudit` | scripts/testing/fuzz_live_matrix.py:6391-6413 | when edits are sent in canonical order, stack and audit have the same marker |
| `Revisions.StackAgreesIff` | scripts/testing/fuzz_live_matrix.py:6391-6413 | they mean the same edit exactly when no other unredacted edit is newer than the last one sent |
| `Revisions.StackMayDisagree` | scripts/testing/fuzz_live_matrix.py:6391-6413 | two edits sent out of canonical order, on which they differ |
| `Sync.MatrixClient.SyncIncrementalComplete` | scripts/testing/fuzz_live_matrix.py:4413-4434 | a failure leaves cursor and events unchanged; against an honest append-only log every event between the first token and the cursor has been seen |
| `Sync.MatrixClient.EnumerateSyncInterval` | scripts/testing/fuzz_live_matrix.py:4367-4411 | ends against any server with finitely many tokens; covers the whole interval, and nothing before it, when the pages are honest; succeeds against a server that keeps advancing |
| `Sync.PageCovers` | scripts/testing/fuzz_live_matrix.py:4390-4394 | an honest page extends what is covered to where the page ends |
| `Sync.RawEventMap` | scripts/testing/fuzz_live_matrix.py:4348-4365 | refuses exactly chunks that are no lists of events with ids, and keeps the last event of each id |

## Left out

- Random numbers: each draw is an arbitrary value in its documented range, not the output of a generator with a seed.
- The other fixed-profile traces (restart regression, sustained streams, saturation) are validated but not generated.
- Error texts: a failed validation is a verdict, an error return a value that names the branch.
- JSON, SQLite, HTTP, log parsing and process control: records, decisions, events and pages arrive as typed values.
- Reports: the sorted order of the tuples in reports and probes.
- Supersession.LinkChains: wire facts (a journal row that matches its event, the restart note, a visible completed answer)
  are given as sets of sources; pending deliveries, records, chains and decisions are modelled. Recovery proofs are not.
- Supersession.SupersessionObserver.ObserveSupersession: assumes each source is expected once, as the homeserver's event ids ensure.
- WaitBudget.ExactReplyOracle.WaitWithBudget: the expected sources do not change during the wait and no registration is
  pending, so that the check for wrong replies runs after every poll; times are whole milliseconds.
- WaitBudget.ExactReplyOracle.SyncOnce: threaded replies of the agent only; not the exemption of auto-resume relays, nor
  edits, which extend the quiet window.
- ReplyBodies.ReplyTracker.IngestEvent: the auto-resume exemption for relay senders, the summaries kept of other senders'
  events, and the other fields of a response view than its body are not modelled.
- Revisions.RevisionTracker.Pop: the evidence kept about redacted edits and the pending debts are not modelled.
- Sync.MatrixClient.SyncIncrementalComplete: one room; the payload of an event is opaque text.
- Pair sessions and connections are values in ordered sequences, not objects shared between dictionaries.
- PairingRuns.RestartRefinement: the rate limiter's verdict is an input of each request, since buckets are not saved; after a
  restart no request carries a clock reading older than one before it.
- Hashes are an uninterpreted function; session ids, connection ids and namespaces are drawn fresh, without the redraw loop
  of namespaces; pair codes may repeat. Text normalisation of codes, and the JSON and date round trip of the file, are left out.
- An operator's hand-edited namespace exemption, and files without namespaces.
- RateLimit.RateLimiter.Enforce: the window is the service's 60 seconds.
- The parsing of SVG text into words, scalars and references, ids nested inside definitions, indentation of the output,
  and digits other than ASCII.
- The geometry, artwork and shading of the logo, dashboards, deployment scripts and the runtime under src/.
