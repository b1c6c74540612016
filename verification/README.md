# Callgent API: its resumable state machines, in Dafny

Callgent runs a client request as an event that passes through listeners, calls
service endpoints, may be suspended for minutes or days, and is resumed by a
callback.  This project models the parts that carry that: the processor chain of
an endpoint invocation, the response cache that coalesces concurrent callers of an
async endpoint, the persisted listener pipeline, the bounded repair of task
scripts, the balance ledger around model completions, and the algorithms they
lean on (ids, invoke keys, endpoint choice, forking, the task runner's pipe).

`dafny verify dfyconfig.toml` checks everything.

How it is laid out, one module a file:

- `SepChain`: the processor loop with its saved cursor, for any list of processors
  and any processor behaviour.  `Cached`: the cache table and its service.
  `Invocation`: the seven processors in their injected order, and what one call of
  the chain comes to.  `DirectInvocation`: the in-place services around it.
  `Coalescing`: any number of events sharing the cache, one step being a whole
  first pass, a whole callback, or the delivery of one triggered resume, in any
  order.  Its invariant is `Good`; `Reachable` ranges over every run.
- `ListenerOrder`, `EventPipeline`, `Resumption`: which listeners an event meets,
  one persisted run over them, and runs that are interrupted.
- `ScriptRunner`, `LlmChat`, `Ledger`: repair loop, retry loop, money.
- `Ids`, `InvokeKeys`, `BracketScan`, `EndpointChoice`, `HubFork`, `PipeClient`.

Code that updates things in place is a class whose methods state the new state
through a function of the old one; properties of runs are lemmas about those
functions.  Adaptors, auth processes, listeners, callbacks, language-model answers,
script fixes, clocks and the database's row order are arbitrary inputs of each
step.  Money and times are integers, as their columns are.

What the code does where its comments or messages suggest otherwise:

- A direct invocation that is resumed records its response, but the handler then
  reads the status of an undefined result, so the stored event always ends in error
  (`Coalescing.ResumedEventFails`).  The response in the event's context is what
  `Settled` and the agreement properties speak of.
- An invocation that authentication suspended may not become pending afterwards:
  `invokeSEPsCallback` throws.  The endpoint has then accepted the request and the
  pending row exists, but nobody can resolve it, and later callers of the same key
  wait on it for ever (`Coalescing.BornOrphanIff`, `Coalescing.ResolvableIff`,
  `Coalescing.OrphansAreReachable`).
- The final error of the repair loop speaks of three attempts; there are four
  repairs and five executions.
- `_group` slices the list of keys by the number of distinct keys, so repeated
  keys push later ones out (`Cached.GroupsKeep`).
- A stage that both suspends and stops its event loses its resume: the callback is
  accepted, calls nobody and leaves the event processing (`Resumption.StopLosesResume`).
- Unaddressed items of a model's answer are not validated, so they can repeat the
  other candidate of a purpose or name an endpoint nobody offered
  (`EndpointChoice.CoincideIff`, `EndpointChoice.NamedEndpointsExistIff`).
- A refund is a negative amount and lowers the balance (`Ledger.RefundsOverdraw`).

## Model

| member | source | states |
|---|---|---|
| InvokeKeys.RoundTripIff | src/invoke/invoke.service.ts:124-134 | parsing an invoke key gives back its two parts exactly when the invoke id holds no dash |
| InvokeKeys.NegativeCodesAreLost | src/invoke/invoke.service.ts:184-193 | the key made of a task runner's negative request code names no invocation and another event |
| InvokeKeys.DirectKey | src/invoke/invoke.service.ts:124-134 | a direct invocation, with the empty id, always gets its own event back |
| SepChain.InvokeStatus.Break | src/invoke/chain/sep.processor.ts:41-43 | only the break flag is set |
| SepChain.InvokeStatus.End | src/invoke/chain/sep.processor.ts:46-48 | only the saved name is dropped |
| SepChain.InvokeStatus.Process | src/invoke/chain/sep.processor.ts:13-31 | cursor, stop flag, reply and world after one processor, also when it throws |
| SepChain.InvokeStatus.Chain | src/invoke/invoke-sep.service.ts:38-62 | the loop with its in-place cursor computes the recursive run, including which processors it entered |
| SepChain.OneSegment | src/invoke/invoke-sep.service.ts:39-62 | a call runs one contiguous segment from the saved position, none after the end; the position never moves back |
| SepChain.SegmentsJoinToPrefix | src/invoke/chain/sep.processor.ts:13-31 | over any calls, responses and changes of the world, the processors run are a prefix of the list with only re-entered ones repeated |
| Cached.CachedService.FromCached | src/cached/cached.service.ts:40-83 | which row is served, what becomes of the table, and the configuration used; the branch for neither async nor ttl cannot be reached |
| Cached.CachedService.Delete | src/cached/cached.service.ts:204-211 | exactly one row goes |
| Cached.CachedService.AddObserver | src/cached/cached.service.ts:150-156 | one key is appended to one row |
| Cached.CachedService.ToCache | src/cached/cached.service.ts:90-112 | an endpoint that caches gets a new row with the reply and no observers under a free key, or a violated unique index and no change; any other changes nothing |
| Cached.CachedService.UpdateCache | src/cached/cached.service.ts:119-138 | the row's response is replaced, and each observer of a list without repetitions is resumed with it once, in order |
| Cached.CachedService.NotifyObservers | src/cached/cached.service.ts:160-181 | the resumes triggered are those of the groups, in order |
| Cached.CachedService.Group | src/cached/cached.service.ts:186-192 | the loop computes the groups |
| Cached.GroupsKeep | src/cached/cached.service.ts:186-192 | the groups hold the list up to its number of distinct keys rounded up, and all of it exactly when it is no longer |
| Cached.GroupsPartition | src/cached/cached.service.ts:186-192 | a list without repetitions is split completely, in order |
| Cached.RepeatedKeysAreCut | src/cached/cached.service.ts:187-190 | one caller that looks a pending key up three times keeps a later one from ever being resumed |
| Cached.ServedIsFresh | src/cached/cached.service.ts:50-112 | after any uses, a lookup with positive ttl serves the last value written for that endpoint and key, at most ttl old |
| Cached.StoredIsServed | src/cached/cached.service.ts:50-112 | what is stored under a free key is what every lookup within the ttl serves, through any other uses of the cache that find it in time, up to the latest update |
| Cached.ServedIff | src/cached/cached.service.ts:50-82 | exactly when a lookup serves a row, and that it serves its response |
| Cached.UncachedLeavesNoTrace | src/cached/cached.service.ts:214-220 | an endpoint that may not cache never reads or changes the table |
| Invocation.ProcessorsWellNamed | src/invoke/invoke.module.ts:28-37 | the injected processors have distinct, non-empty names |
| Invocation.FirstPassIs | src/invoke/chain/sep-cache.processor.ts:19-32 | a first call, or a re-entry of authentication, of the seven-step chain is auth, lookup, adaptor, postprocessing and storing with all their early exits |
| Invocation.CallbackPassIs | src/invoke/chain/sep-callback.processor.ts:19-30 | a callback is postprocessing, then resolving the row and resuming its observers |
| Invocation.EndedPassIs | src/invoke/invoke-sep.service.ts:59-62 | an ended chain hands the notified response through and touches nothing |
| Invocation.Lifetime | src/invoke/invoke-sep.service.ts:39-62 | over any calls and interference: adaptor at most once, exactly one postprocessing in the right pass, callback stages only after a pending answer |
| Invocation.AuthMayRepeat | src/invoke/chain/sep-auth.processor.ts:35-40 | of the chain alone: any number of auth suspensions keeps the invocation at its first processor with nothing done; the service allows one, see `Coalescing.AuthSuspendsOnce` |
| DirectInvocation.Task.InvokeSEP | src/invoke/invoke.service.ts:81-108 | the chain's result, and the invocation's entry kept exactly while pending |
| DirectInvocation.Task.SetCallbackResponse | src/invoke/invoke.service.ts:136-146 | the response is left on the invocation, which must exist |
| DirectInvocation.Task.RunAndFix | src/invoke/script-runner.service.ts:20-45 | a direct invocation ends processed exactly if authentication passes and the cache or the adaptor has an answer, which is then its response; it waits exactly if authentication suspends it or the answer is pending; and it is the protocol's step |
| DirectInvocation.Task.ResumeWith | src/invoke/script-runner.service.ts:27-45 | a direct invocation's event after a resume, as the protocol has it |
| Coalescing.EmitEnds | src/invoke/script-runner.service.ts:34-45 | an emission in any state: processed with the answer, waiting or failed, each exactly when; no other event changes |
| Coalescing.EmitStores | src/invoke/chain/sep-cache.processor.ts:19-32 | an emission in any state leaves in the cache the answer or the pending marker, a joined row, a deleted row, or nothing new, each exactly when |
| Coalescing.ReentryEnds | src/invoke/invoke.service.ts:59-69 | a re-entry after an auth suspension records its response exactly if authentication passes and an answer is had, but always ends in error |
| Coalescing.CallbackEnds | src/invoke/chain/sep-callback.processor.ts:19-30 | an endpoint's callback, cached or not: the postprocessed answer is the response and replaces the row's, or postprocessing fails and nothing is recorded |
| Coalescing.SingleFlight | src/cached/cached.service.ts:55-82 | in every reachable state a suspended caller owns the one pending row, or is listed in it exactly once, or has exactly one resume on its way |
| Coalescing.OneOwner | prisma/schema.prisma:571-595 | two invocations never own the same key at once |
| Coalescing.PendingUntilResolved | src/cached/cached.service.ts:119-138 | a pending row is kept with owner and observers by every step but its owner's successful callback, which gives row, owner and each observer the same data |
| Coalescing.CallersAgree | src/cached/cached.service.ts:119-181 | in every reachable state, owner and observers of each resolution have, or are about to get, the same data |
| Coalescing.ResumedOnce | src/event-listeners/event-listeners.service.ts:71-101 | the delivery of a resume settles its observer for good and no other is on its way |
| Coalescing.NobodyLeftWaiting | src/cached/cached.service.ts:135-181 | after the owner's callback and the deliveries then due, in any order, owner and waiting observers have the data and no event waits for the row |
| Coalescing.EndedIsFinal | src/event-listeners/event-listeners.service.ts:78-81 | an event that is not pending never changes again |
| Coalescing.ResolvableIff | src/cached/cached.service.ts:119-138 | a pending row can be resolved in some continuation exactly when its owner's event is pending |
| Coalescing.ObserversOfOrphanWait | src/cached/cached.service.ts:77-82 | observers of a row that nobody can resolve wait in every continuation |
| Coalescing.BornOrphanIff | src/invoke/invoke.service.ts:59-64 | a new row is one that nobody can resolve exactly when its invocation had been suspended by authentication |
| Coalescing.OrphanedByCallbackIff | src/invoke/chain/sep-postprocess.processor.ts:27-38 | a callback leaves its row unresolvable exactly when postprocessing throws |
| Coalescing.OrphansAreReachable | src/invoke/invoke.service.ts:59-64 | for every coalescing endpoint and key: a run after which nobody can resolve the row and a later caller waits on it in every continuation |
| Coalescing.AuthSuspendsOnce | src/invoke/invoke.service.ts:59-69 | an accepted callback is the event's last, which ends in error in every continuation; so authentication suspends an invocation at most once |
| ListenerOrder.DiffIsTotalPreorder | src/event-listeners/event-listeners.service.ts:206-211 | the comparator is a total preorder; ties are equal priority and equal generality |
| ListenerOrder.LoadListeners | src/event-listeners/event-listeners.service.ts:173-217 | exactly the listeners the event meets, lower priority first and those of any source first among equals, or the error exactly when there are none |
| ListenerOrder.SortIsStable | src/event-listeners/event-listeners.service.ts:206-211 | listeners that tie stay in the database's order |
| ListenerOrder.ResumeListeners | src/event-listeners/event-listeners.service.ts:220-233 | the live part of the full list from the stored listener on, and both errors |
| ListenerOrder.ResumeRefusedIff | src/event-listeners/event-listeners.service.ts:214-229 | exactly which resumes are refused and with which error; without a stored listener all live ones are met |
| ListenerOrder.LoadIsDeterministic | src/event-listeners/event-listeners.service.ts:199-211 | without ties the result does not depend on the database's row order |
| ListenerOrder.LiveOfAll | src/event-listeners/event-listeners.service.ts:219-233 | the live part of the full list is the list an emission loads |
| ListenerOrder.ResumeFindsSuffix | src/event-listeners/event-listeners.service.ts:220-233 | a resume continues with exactly the rest of the emission's list, whatever else is soft-deleted |
| ListenerOrder.ResumeStartsAtStoredIff | src/event-listeners/event-listeners.service.ts:220-233 | from any stored listener, a resume runs over the live part of the full list from it on, and starts at that listener exactly if it is not soft-deleted |
| ListenerOrder.DeletedListenerShiftsResume | src/event-listeners/event-listeners.service.ts:223-232 | an instance where the stored listener is deleted and the next one is resumed |
| EventPipeline.EventListenersService.UpsertEvent | src/event-stores/event-stores.service.ts:61-81 | the stored row; success keeps the earlier continuation |
| EventPipeline.EventListenersService.RunListeners | src/event-listeners/event-listeners.service.ts:128-156 | the loop's event, function name, position and calls |
| EventPipeline.LoopIsTheRun | src/event-listeners/event-listeners.service.ts:128-156 | the loop's event and calls are those of the one run in which every listener but the last hands the event on untouched by an error, a suspension or a stop, and the last one's result gives the status |
| EventPipeline.EventListenersService.InvokeListeners | src/event-listeners/event-listeners.service.ts:123-171 | the event, its stored row and the calls after one run, on every exit |
| EventPipeline.EventListenersService.Emit | src/event-listeners/event-listeners.service.ts:43-62 | one run over the loaded listeners, or the error and no change |
| EventPipeline.EventListenersService.Resume | src/event-listeners/event-listeners.service.ts:71-101 | the guarded resume; each refusal changes nothing and calls nobody |
| EventPipeline.ContinuationIsExact | src/event-listeners/event-listeners.service.ts:143-170 | never still processing; unless it succeeds, a resume function is saved exactly when it is pending or when the resumed stage itself failed; which listener is stored in each case |
| EventPipeline.StoppedStaysProcessing | src/event-listeners/event-listeners.service.ts:130-133 | a run ends as processing exactly for an empty list or an event stopped beforehand |
| Resumption.InterruptedEqualsUninterrupted | src/event-listeners/event-listeners.service.ts:123-171 | emission plus resumes makes the calls of the uninterrupted run exactly when no stage both suspends and stops and is then resumed; the final event is the same |
| Resumption.ContinuedIsAnswered | src/event-listeners/event-listeners.service.ts:71-101 | the same from any suspended row; otherwise the reference run makes more calls |
| Resumption.EqualWithoutStops | src/event-listeners/event-listeners.service.ts:123-171 | with listeners that never both suspend and stop, every interrupted run makes the calls of the uninterrupted one and ends with the same event |
| Resumption.StopLosesResume | src/event-listeners/event-listeners.service.ts:130-151 | the converse: for every stage that does both, a run whose accepted resume calls nobody and leaves the event processing |
| Resumption.LostResumeExists | src/event-listeners/event-listeners.service.ts:130-151 | an instance of such a stage |
| Resumption.EachSuspensionOnce | src/event-listeners/event-listeners.service.ts:78-101 | over any callbacks, runs started equal suspensions, less one if the event is still suspended; any other callback changes nothing |
| ScriptRunner.Runner.RunAndFix | src/invoke/script-runner.service.ts:20-25 | the recursive methods compute the recursive specification |
| ScriptRunner.Runner.RunAndFixCallback | src/invoke/script-runner.service.ts:27-32 | the same from a callback |
| ScriptRunner.Runner.HandleResult | src/invoke/script-runner.service.ts:34-59 | suspend, finish with the data as response, fail, or repair, clear the invocations but for the counter, and run again, each exactly when |
| ScriptRunner.RepairIsBounded | src/invoke/script-runner.service.ts:47-58 | per event, over any suspensions: at most four repairs and five executions, and the stored counter is the number of repairs |
| ScriptRunner.RepairBoundIsTight | src/invoke/script-runner.service.ts:48-50 | a script that reaches both bounds |
| ScriptRunner.RepairedIff | src/invoke/script-runner.service.ts:48-58 | a fixable failure is repeated exactly while at most three repairs were made |
| ScriptRunner.SessionEnds | src/invoke/script-runner.service.ts:34-59 | over any callbacks: finished exactly if the last answer is data, then its response; suspended exactly if it waits; else failed, a script error only if it cannot be fixed or four repairs were made |
| Ledger.TransactionsService.Check | src/transactions/transactions.service.ts:34-42 | passes exactly for a positive balance, with both errors |
| Ledger.TransactionsService.Create | src/transactions/transactions.service.ts:46-73 | exactly which transactions are accepted; row and balance then change together, otherwise nothing does; which error |
| Ledger.PayRaises | src/transactions/transactions.service.ts:51-72 | an allowed payment under a new id raises its tenant's balance by its amount, in any run |
| Ledger.ChargeLowers | src/billing/billing.service.ts:144-158 | a completion's charge under a new id lowers its tenant's balance by the cost, in any run |
| Ledger.PricingIsMostSpecific | src/billing/billing.service.ts:128-147 | the provider's own price if there is one, else the default, else an error |
| Ledger.Conservation | src/transactions/transactions.service.ts:46-73 | after any run balance is start plus recorded amounts; signs by type; a repeated external id changes nothing |
| Ledger.OverdraftBound | src/agents/llm.service.ts:370-421 | with at most n completions in flight of at most c each and no refunds, the balance stays above -n*c |
| Ledger.OverdraftBoundIsTight | src/agents/llm.service.ts:370-421 | for every n and c a run that ends at 1 - n*c |
| Ledger.RefundsOverdraw | src/transactions/transactions.service.ts:50-56 | a refund alone overdraws by any amount |
| LlmChat.Conversation.Chat | src/agents/llm.service.ts:140-236 | the loop's outcome; the caller's messages grow by the answer on success and not otherwise |
| LlmChat.ChatIsBounded | src/agents/llm.service.ts:185-227 | at most three completions, two messages more per failed attempt |
| LlmChat.ChatAnswersIff | src/agents/llm.service.ts:185-236 | answers exactly when an attempt is accepted after only exceptions; a missing payment ends it |
| LlmChat.ChatIs | src/agents/llm.service.ts:185-236 | the chat ends at the first attempt that is not retried, as that has it, or after three with the last complaint; what was sent is the opening and, per retried attempt, the latest reply and the complaint; unpaid exactly if an unpaid attempt comes after only retried ones |
| Ids.IntToBase64 | src/infras/libs/utils.ts:27-35 | the loop computes the digits |
| Ids.Base64RoundTrip | src/infras/libs/utils.ts:27-35 | decoding inverts it, for every non-zero number, exactly below 2^32 |
| Ids.Base64Injective | src/infras/libs/utils.ts:27-35 | different counters have different codes |
| Ids.FourDigits | src/infras/libs/utils.ts:21-25 | four digits exactly from 64^3 until 64^4 |
| Ids.AcceptedIff | src/event-listeners/event-object.ts:47-58 | which task ids are kept, for any string |
| Ids.MintedAcceptedIff | src/event-listeners/event-object.ts:47-58 | a minted task id is kept by another event exactly if ids are equally long and the year does not start with zero |
| Ids.TaskIdsAreShared | src/event-listeners/event-object.ts:73-91 | all events of the four-digit era keep each other's task ids |
| Ids.DateReads | src/event-listeners/event-object.ts:86-91 | the date string is six digits that read as the number yymmdd |
| Ids.SettledTaskIdStays | src/event-listeners/event-object.ts:47-58 | whatever task id an event settles on, kept or minted, is kept by every event with an equally long id |
| BracketScan.Extract | src/infras/libs/utils.ts:55-82 | the shortest balanced piece from the first opening bracket, nothing without one, and the error when it never closes |
| BracketScan.PieceIsUnique | src/infras/libs/utils.ts:55-82 | that piece is unique and excludes the error |
| BracketScan.QuotedBracketsCount | src/infras/libs/utils.ts:66-80 | an instance, for any text that follows: a bracket inside a string literal ends the piece |
| EndpointChoice.UniqueBy | src/infras/libs/utils.ts:111-118 | the loop keeps the first element of each key |
| EndpointChoice.FirstByKeyIsUnique | src/infras/libs/utils.ts:111-118 | distinct keys, none lost, first occurrences kept |
| EndpointChoice.NamesForIs | src/agents/script-agent.service.ts:246-259 | a purpose's candidates are exactly the names its items give |
| EndpointChoice.NeedOfFirst | src/agents/script-agent.service.ts:246-254 | whether a purpose needs an external API is what its first item says |
| EndpointChoice.Collect | src/agents/script-agent.service.ts:237-259 | both maps hold exactly what the purposes say |
| EndpointChoice.Group | src/agents/script-agent.service.ts:419-424 | the groups are the purposes by number of candidates; out of range exactly beyond two |
| EndpointChoice.Confirmed | src/agents/script-agent.service.ts:440-444 | one entry per single-candidate purpose |
| EndpointChoice.ConfirmEndpoints | src/agents/script-agent.service.ts:403-483 | when the request is impossible, when the model's answer is taken, and else the single candidates |
| EndpointChoice.AtMostTwoCandidates | src/agents/script-agent.service.ts:246-259 | at most two candidates per purpose, whatever the model answers |
| EndpointChoice.CoincideIff | src/agents/script-agent.service.ts:227-246 | two candidates of a purpose are the same endpoint exactly when an unaddressed item of the second answer, the first of its key, repeats the first answer's name |
| EndpointChoice.CandidatesDiffer | src/agents/script-agent.service.ts:227-234 | so they differ if unaddressed items name no endpoint |
| EndpointChoice.CandidatesCanCoincide | src/agents/script-agent.service.ts:396-400 | an instance: answers that validate and give the same endpoint twice |
| EndpointChoice.NamedEndpointsExistIff | src/agents/script-agent.service.ts:317-331 | all purposes name offered endpoints exactly when the unaddressed items that survive `uniqueBy` do, in both answers |
| EndpointChoice.UnknownNameIsKept | src/agents/script-agent.service.ts:269-273 | an instance: answers that validate, with an endpoint on offer, from which every choice keeps a name without an endpoint |
| EndpointChoice.ChooseEndpoints | src/agents/script-agent.service.ts:210-274 | chosen endpoints are exactly those the chosen purposes name, looked up among the offered; exactly when it fails; never out of range; every one exists if the unaddressed items' names do |
| HubFork.DupGroup | src/callgent-hub/callgent-hub.service.ts:225-231 | every item of the copy is one of the original under its new realm, with its scopes and attachment; throws exactly for an unknown realm |
| HubFork.DupSecurities | src/callgent-hub/callgent-hub.service.ts:224-233 | the same for an or-list |
| HubFork.KeysNameTheirRealms | src/callgent-hub/callgent-hub.service.ts:229 | an item's key reads as its realm's primary key |
| HubFork.MeaningPreserved | src/callgent-hub/callgent-hub.service.ts:224-233 | where no and-group repeats a realm and each new realm grants what the old one did, the copy lets the same callers pass |
| HubFork.FreshCopyPassesIff | src/callgent-realms/callgent-realms.service.ts:246-248 | until the new realms get secrets, the copy lets somebody pass exactly where the original asks nothing |
| HubFork.NoCollapseIff | src/callgent-hub/callgent-hub.service.ts:227-230 | an and-group keeps all items exactly when no realm occurs twice in it |
| HubFork.Hub.CopyRealms | src/callgent-hub/callgent-hub.service.ts:144-170 | one new realm per realm of the source under a fresh row key: same scheme and name, key derived anew from them, new callgent and tenant, no secret; throws exactly if a derived key is taken or two of them agree |
| HubFork.Hub.CopyRealm | src/callgent-hub/callgent-hub.service.ts:159-168 | one more realm copied; throws exactly if that makes the keys clash |
| HubFork.Hub.CopyEndpoints | src/callgent-hub/callgent-hub.service.ts:208-218 | endpoints with renamed requirements; throws exactly if one names an unknown realm |
| HubFork.Hub.CopyEntries | src/callgent-hub/callgent-hub.service.ts:197-221 | entries with renamed requirements and their endpoints; throws exactly if one names an unknown realm |
| HubFork.Hub.CopyAll | src/callgent-hub/callgent-hub.service.ts:94-222 | the tables after the copy, with the new realms field by field, or unchanged after any failure; exactly when it fails |
| HubFork.Hub.Duplicate | src/callgent-hub/callgent-hub.service.ts:86-237 | tenant restored on every exit; exactly when it fails; after success the new realms' fields, every requirement of the copy names a realm of the copy, and until these have secrets an entry lets somebody pass exactly where the original asks nothing |
| PipeClient.FrameDecodesIff | templates/task-runner/pipe-client.ts:47-54 | a frame decodes to its payload, separators included, exactly if prefix and id hold none |
| PipeClient.PipeClient.constructor | templates/task-runner/pipe-client.ts:18-27 | an empty table, unconnected |
| PipeClient.PipeClient.RequestIdsDiffer | templates/task-runner/pipe-client.ts:112 | request ids are never reused |
| PipeClient.PipeClient.Write | templates/task-runner/pipe-client.ts:115-120 | registered and written |
| PipeClient.PipeClient.SendCommand | templates/task-runner/pipe-client.ts:111-128 | a new id; written at once or queued; every request in exactly one place |
| PipeClient.PipeClient.OnConnect | templates/task-runner/pipe-client.ts:38-45 | all waiting commands are written in order and nobody waits |
| PipeClient.PipeClient.OnClose | templates/task-runner/pipe-client.ts:67-71 | unconnected, nothing lost |
| PipeClient.PipeClient.OnData | templates/task-runner/pipe-client.ts:47-59 | exactly the named pending request is resolved, else nothing changes |
| PipeClient.PipeClient.OnWriteError | templates/task-runner/pipe-client.ts:120-125 | rejected unless already settled |
| PipeClient.PipeClient.Answer | templates/task-runner/pipe-client.ts:52-55 | a response settles its request with the payload sent |

## Left out

- Each processor's `_process` and each listener's function: values that say what they did to the event, the cache and the cursor, not objects; aliasing between an event and its listeners is not captured.
- Interleaving inside one pass: a first pass, a callback or a delivery is one step, so a lookup and the later store of two callers do not race; the unique index that would then refuse the second store is modelled in `ToCache`.
- `resume` of an observer by an outside party before its owner: only invocations that asked something are called back from outside.
- Several endpoint calls of one task script: their keys do not come back (`NegativeCodesAreLost`), so the protocol covers direct invocations; the subprocess, its freezing and its exit codes are not part of this model.
- Observers of a pending row whose positive ttl runs out: the code leaves them (a FIXME), so single flight and agreement are stated for async endpoints without ttl; other endpoints take part in the same runs.
- Error statuses: the protocol tells done, pending and failed apart; the listener pipeline keeps the numbers and excludes exceptions whose status is 1 or 2.
- Finding the endpoint by name in `chain`, messages, logging, and the difference between an undefined response and a missing JSON property.
- `event.histories`, which is not stored, and the event's callback after it is done.
- The timeout race of `emit`, which answers the client early and leaves the run as it is.
- Creation of uuids and random parts, bcrypt, `toFunction`, `jsonrepair`, `JSON.parse`, and fenced code blocks in `toJSON`.
- The order of object properties, so the order of chosen endpoints.
- The check that only original callgents are committed to the hub: the field it reads is not selected, so it never fires.
- The cached `query` of a language model, prompts, and the wording around complaints in `chat`.
- Rounding of fractional model costs to the ledger's integer column; currency exchange.
- Heartbeat, reconnection timers, `sendResult` and how the pipe cuts frames; the server answers with the code alone, so the client is modelled on its own.
- Authentication with several realms in one group, token stores and OAuth flows: one oracle per auth function.
- Controllers, tenancy policies in the database, e-mail, files, Stripe, pagination and web page generation.
