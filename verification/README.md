# driftlessaf, modelled and proved

Seven parts of the repository, each modelled on its own and proved in Dafny 4.11. `dafny verify dfyconfig.toml` checks
everything.

**Durable suspend and wake** (`Checkpoint`, `MemStore`, `Isolation`, `Questions`, `SuspendProtocol`, `SuspendSafety`,
`SuspendPairing`, `Coordinator`). A paused agent run is an envelope in a compare-and-swap store plus a question in a
nonce-bound question store. `SuspendProtocol` makes every store or question call one atomic step and lets any number of
Suspend and Wake calls interleave; `SuspendSafety` proves what every run keeps, and `SuspendPairing` whose answer a Wake
resumes with. `SuspendCoordinator.Coordinator` is the Go type over heap objects: each method is proved to perform a legal
run of the protocol and to return what that run says. `StoreIsolation` adds the callers of the store and all the memory
they can reach.

**Work queue and dispatcher** (`Inmem`, `Dispatcher`, `DispatchProtocol`, `DispatchSafety`). The in-memory queue is a
class over two maps. The protocol lets dispatcher passes overlap: a launched closure may start arbitrarily late, from a
handle that has gone stale. History variables count the Starts of each key and record the calls behind each entry.

**Prompt composition** (`Template`, `Prompts`, `Build`, `BuildResults`). A single-pass template walk, immutable prompts, and a build that
is memoised by prompt and limited in depth and bytes. Prompts are numbered in the order they are made, so a prompt can
only bind older ones. The reference for a build is `Build.Plain`, recursive substitution without memo or budget;
`BuildResults` says what a build returns in terms of the strings that were bound.

**Answer framing** (`Utf8`, `Answer`), on bytes. **Blob store** (`BlobSpec`, `BlobPaging`, `BlobRuns`, `Blob`): Put, Get,
Delete and cursor paging, with `BlobIsolation` for its callers. **Resync sharder** (`Resync`). **Circuit breaker**
(`Backoff`, `Breaker`).

Clocks, jitter draws, nonces and hash values are parameters; the iteration order of a Go map is an arbitrary choice inside
the method. Times and durations are unbounded integers of nanoseconds, with 0 for Go's zero time. Faults of a backup hook,
of nonce generation and of question-store calls are parameters too.

## Where the code and its documentation differ

- `agents/suspend/coordinator.go:246-248` calls a question left over by a failed Consume harmless. A Suspend saves its
  envelope before it posts its question, so a Wake in between resumes the new envelope with the old answer:
  `SuspendPairing.GapMispairs` is such a run of envelopes that Suspend stamped. `SuspendPairing.OverlapMispairs` is
  another, in which two Suspends of a key overlap and every question has been posted.
  `SuspendPairing.ClaimPairsIffLastAsked` says over every run exactly when a claim pairs: when the last Ask of the key,
  before the answer was read, had been made by the Suspend whose envelope the Wake had loaded. Claim-once needs no such
  condition.
- `store/blob/blob.go:43-47` says that an empty cursor means an exhausted listing. With an object whose name is empty this
  fails for one kind of page: `BlobSpec.EmptyCursorIsNotTheEnd` has one, two Puts from an empty bucket.
  `BlobSpec.EmptyCursorMeansExhaustedIff` gives the condition both ways, and the completeness theorems exclude that first
  page and nothing else.
- `reconcilers/resync/doc.go:28` passes a clock reading first to `New`; the code takes the tick first and reads the clock
  itself.

## Model

| member | source | states |
|---|---|---|
| SuspendSafety.GenerationsNeverReused | agents/checkpoint/memstore/memstore.go:36-43 | Over every run, each Save is given a generation above all that any earlier Save, on any key, was given, and above every token ever claimed or swept. |
| SuspendSafety.RemovedAtMostOnce | agents/suspend/coordinator.go:197-240 | No saved envelope is removed twice, by claim or by sweep, in any interleaving. |
| SuspendSafety.SavedIsAccountedFor | agents/suspend/coordinator.go:141-240 | Conservation over every run: a saved envelope is parked exactly while no Wake has removed it and no later Save of its key has replaced it. |
| SuspendSafety.EndedIffRemoved | agents/suspend/coordinator.go:197-240 | An envelope counts as removed iff a claim or sweep of the run removed it. |
| SuspendSafety.ClaimOnce | agents/suspend/coordinator.go:233-254 | Two Wakes that resume under the same token are the same Wake, and what it returns is the envelope saved under that token. |
| SuspendSafety.ClaimMeansUntouched | agents/checkpoint/memstore/memstore.go:55-65 | If the Delete of a Wake succeeds, the store held the very envelope that Wake loaded in every state since its Load. |
| SuspendSafety.LaterQuestionsSurviveConsume | agents/suspend/coordinator.go:191-220 | However late a sweep or claim consumes, the question of every pause that began after the envelope it removed stays, reply included. |
| SuspendSafety.RearmMutatesNothing | agents/suspend/coordinator.go:171-181 | In every interleaving, no step of a Wake that returns WakeRearm, or that has yet to claim or sweep, changes the store or the questions. |
| SuspendSafety.LoadDecides | agents/suspend/coordinator.go:197-240 | Over every run: a Wake whose Load found an envelope past its deadline, or was told of drift, never claims or resumes, whatever answer there is; a Wake that found any other is never on the way of a sweep. |
| SuspendPairing.ClaimPairsIffLastAsked | agents/suspend/coordinator.go:141-240 | Over every run, overlapping Suspends included: a claim carries an answer to its own pause's question if and only if the last Ask of the key, before the answer was read, was made by the Suspend whose envelope the Wake had loaded. |
| SuspendPairing.ResumePairsIffLastAsked | agents/suspend/coordinator.go:224-254 | The same of what a Wake returns: every WakeResume read an answer exactly once, holds the envelope saved under its token, and pairs on that condition and no other. |
| SuspendPairing.PendingIsLastAsked | agents/suspend/types.go:59-61 | In every reachable state the pending question of a key is the one last asked. |
| SuspendPairing.ClaimPairsIffQuestionPosted | agents/suspend/coordinator.go:141-166 | Hence, where Suspends of one key do not overlap, a claim pairs if and only if its own Suspend had done its Ask when the answer was read. |
| SuspendPairing.ResumesArePaired | agents/suspend/coordinator.go:224-254 | In every run of Suspends that do not overlap and without a read inside the Save-to-Ask gap, each resume carries the envelope saved under its token with an answer to the nonce minted by that same Suspend. |
| SuspendPairing.OneStepParksLeaveNoGap | agents/suspend/coordinator.go:141-166 | When Save and Ask are one step for their key, with steps on other keys free to go in between: no park is abandoned, and whoever takes a step on a key finds every question of its parks posted, but for the park's own Ask. |
| SuspendPairing.OneStepParksPair | agents/suspend/coordinator.go:181-254 | Hence Suspends of a key do not overlap, no Wake reads in the gap, and every resume of every such run pairs. |
| SuspendPairing.GapMispairs | agents/suspend/coordinator.go:129-166 | For any two envelopes as Suspend stamps them, woken before their deadlines by a clock that does not run back: a legal run in which the second is resumed with the answer to the first one's question, because a Consume failed and a Wake ran between Save and Ask. |
| SuspendPairing.OverlapMispairs | agents/suspend/coordinator.go:141-166 | A legal run of two overlapping Suspends in which both questions have been posted and the envelope saved last is resumed with the answer to the question asked last, which is the other one's. |
| SuspendSafety.WakeKeepsToken | agents/suspend/coordinator.go:181-240 | A Wake keeps the key and token of its Load until it returns, whatever others do. |
| SuspendCoordinator.WakeRunReturns | agents/suspend/coordinator.go:181-255 | From any point, the remaining steps of a Wake are a legal run that ends in its return. |
| SuspendCoordinator.SweepRun | agents/suspend/coordinator.go:197-222 | The steps of a sweep after the Load: Pending, Delete, and a Consume only after a Delete that won with a question pending. |
| SuspendCoordinator.ClaimRun | agents/suspend/coordinator.go:224-254 | The steps of a claim after the Load: the read of the answer, the Delete only if there is one, and the Consume only if the Delete won. |
| SuspendCoordinator.WakeDecides | agents/suspend/coordinator.go:171-181 | The three outcomes after any run, said of the stored fields: an undisturbed Wake without faults is fresh iff nothing is parked, the deadline has passed or there is drift; resumes iff it is not and a reply bound to the pending nonce is there; rearms otherwise; and it leaves both stores accordingly. |
| SuspendCoordinator.Coordinator.Stamp | agents/suspend/coordinator.go:129-137 | The envelope gets the key and, only if it had none, a deadline: now plus the configured time, or plus fourteen days. |
| SuspendCoordinator.Coordinator.Suspend | agents/suspend/coordinator.go:112-169 | Nothing is written unless the stamped envelope is valid; then exactly a Save, and exactly one Ask under the fresh nonce unless a fault is reported; the requeue delay lies within the jitter. Every parked envelope stays valid, keyed by its own key and bounded by a deadline. |
| SuspendCoordinator.Coordinator.Sweep | agents/suspend/coordinator.go:197-222 | A dead envelope is swept by the protocol's own steps, and the Wake returns fresh. |
| SuspendCoordinator.Coordinator.Claim | agents/suspend/coordinator.go:224-254 | The answer is returned exactly when the compare-and-swap won, also if the Consume fails. |
| SuspendCoordinator.Coordinator.Wake | agents/suspend/coordinator.go:181-255 | Whatever faults occur: fresh iff nothing is parked, the deadline has passed or there is drift, so a drifted envelope is never resumed. A resume hands out the parked envelope, fit for its own executor, in memory of its own and with no error. Without faults it resumes iff the pending question has its reply, and both stores are left accordingly. It performs exactly one run of the protocol. |
| SuspendCoordinator.ValidateHeap | agents/checkpoint/lifecycle.go:94-116 | Validation of the heap envelope is validation of its value, and changes nothing. |
| Checkpoint.FirstEmptyIDFindsTheFirst | agents/checkpoint/lifecycle.go:110-114 | The reported index is that of the first pending call without an ID; none is reported iff all have one. |
| Checkpoint.ParksIff | agents/checkpoint/lifecycle.go:94-116 | Exactly which envelopes may be parked, field by field. |
| Checkpoint.ResumesIff | agents/checkpoint/lifecycle.go:128-152 | Exactly which envelopes an executor may resume; drift is reported iff version, provider, model or digest do not match. |
| Checkpoint.ParkGateImpliesResumeGate | agents/checkpoint/lifecycle.go:94-152 | The two gates agree: what may be parked may be resumed by its own executor exactly until its deadline. |
| Checkpoint.AskAFriendParksIff | agents/checkpoint/lifecycle.go:47-69 | Exactly which ask-a-friend suspensions can be parked; none from the final turn. |
| MemStore.CloneBytes | agents/checkpoint/types.go:142-146 | A clone of a byte slice has equal contents in fresh memory, and nil stays nil. |
| MemStore.ClonePending | agents/checkpoint/types.go:138-144 | A clone of the pending calls has equal values, and all its memory, inputs included, is fresh. |
| MemStore.Envelope.Clone | agents/checkpoint/types.go:133-148 | A cloned envelope has the same value and shares no memory with anything. |
| MemStore.Store.Save | agents/checkpoint/memstore/memstore.go:36-43 | Stores the value the envelope had, under the next generation, in memory nobody else holds. |
| MemStore.Store.Load | agents/checkpoint/memstore/memstore.go:45-53 | Returns the stored value and token in fresh memory, or reports absence. |
| MemStore.Store.Delete | agents/checkpoint/memstore/memstore.go:56-65 | Removes the entry iff the token is current, and changes nothing otherwise. |
| StoreIsolation.CallerWritesAreInvisible | agents/checkpoint/types.go:130-148 | Callers may write all memory they ever allocated, passed in or were handed; the contents of the store stay the same. |
| StoreIsolation.Callers.Save | agents/checkpoint/memstore/memstore.go:36-43 | Saving what callers hold keeps the store's memory out of their reach. |
| StoreIsolation.Callers.Load | agents/checkpoint/memstore/memstore.go:45-53 | So does handing out an envelope, all of whose memory callers may write from then on. |
| StoreIsolation.SaveWriteLoad | agents/checkpoint/memstore/memstore.go:36-53 | A Save, any sequence of writes by callers to envelopes, call slices and bytes they hold, and a Load: the envelope comes back as it was when saved. |
| Questions.FileQuestions.Ask | examples/askafriend-demo/main.go:148-155 | The pending question of the key becomes this one, without a reply; other keys are untouched. |
| Questions.FileQuestions.Pending | examples/askafriend-demo/main.go:158-164 | Returns the pending question, if there is one. |
| Questions.FileQuestions.GetAnswer | examples/askafriend-demo/main.go:167-176 | Returns the stored reply exactly when it is bound to the nonce that is pending. |
| Questions.FileQuestions.Consume | examples/askafriend-demo/main.go:179-190 | Removes the question iff the nonce matches; after that no answer is shown. |
| Questions.FileQuestions.Provide | examples/askafriend-demo/main.go:194-206 | Binds the friend's text to the pending nonce, so that Answer shows it at once; fails iff nothing is pending. |
| Inmem.MergeAllIsMerged | workqueue/inmem/inmem.go:65-97 | After any sequence of calls an entry has the highest priority, is floored iff a call was, and its time is the latest floored one, else the earliest of all. |
| Inmem.MergeIsOrderFree | workqueue/inmem/inmem.go:76-97 | No permutation of the calls changes priority, time or floor. |
| Inmem.MergeOptions | workqueue/inmem/inmem.go:76-97 | Priority becomes the higher one and floors add up; two floors take the later time, one floor its own, none the earlier. |
| Inmem.TopMeans | workqueue/inmem/inmem.go:147-173 | What a best-of list is, in the entries' own fields: due keys only, higher priority first and earlier queue time among equals, as many as fit, and no due key left out has a higher priority, or the same and an earlier queue time, than one kept. |
| Inmem.TopStep | workqueue/inmem/inmem.go:153-172 | Sorting one more key in and cutting back to the limit keeps the list a best-of list. |
| Inmem.LeftOutIsNotBetter | workqueue/inmem/inmem.go:164-172 | Nothing cut away beats anything kept, whether it was cut now or earlier. |
| Inmem.SortByRank | workqueue/inmem/inmem.go:164-169 | Sorts by priority, then queue time, and keeps the elements. |
| Inmem.WorkQueue.ListActive | workqueue/inmem/inmem.go:140-145 | The list holds exactly the in-progress keys, each once. |
| Inmem.WorkQueue.ListBest | workqueue/inmem/inmem.go:147-173 | In any iteration order: sorted, distinct, min(limit, eligible) keys, and no eligible key left out is strictly better than one kept. |
| Inmem.WorkQueue.Enumerate | workqueue/inmem/inmem.go:129-186 | In any iteration order: the in-progress keys; and handles of min(limit, due) distinct due keys, by priority, then queue time, none of which a key left out would have to precede, each with its entry's own options and attempts. |
| Inmem.WorkQueue.Queue | workqueue/inmem/inmem.go:49-63 | A new entry with these options, no attempts and this queue time; or the merge into the entry that is there, which keeps attempts and queue time. Other keys and the in-progress map are untouched. |
| Inmem.WorkQueue.Start | workqueue/inmem/inmem.go:329-357 | Succeeds iff the key is in the backlog and not in progress; it moves the key, with the handle's own options and one attempt more. |
| Inmem.WorkQueue.RequeueWithOptions | workqueue/inmem/inmem.go:220-268 | The key is released and waits now + backoff, else now + delay with attempts back at zero, else by its priority; it keeps its owner's priority unless given one; an entry already there is merged into. Other keys are untouched. |
| Inmem.WorkQueue.Complete | workqueue/inmem/inmem.go:294-300 | Releases the key and leaves the backlog alone. |
| Inmem.WorkQueue.Deadletter | workqueue/inmem/inmem.go:276-286 | Releases the key and leaves the backlog alone. |
| Dispatcher.Launch | workqueue/dispatcher/dispatcher.go:81-128 | Launches exactly the inactive handles of a first part of the listing: no more than the batch size or the free slots, none with no free slot, and fewer than both only if every inactive handle is launched. |
| Dispatcher.RetryBackoff | workqueue/dispatcher/dispatcher.go:290-299 | The doubling loop is min(30 s * 2^(n-1), 10 min), also for attempts below one. |
| Dispatcher.RetryDelay | workqueue/dispatcher/dispatcher.go:241-250 | A positive hook value wins; otherwise the curve is stretched by less than half. Always positive. |
| Dispatcher.QueueKeyMeans | workqueue/dispatcher/dispatcher.go:177-185 | One listed key: an entry with its own priority and delay, if there is none yet; nothing else is touched. |
| Dispatcher.QueuedFirstEntries | workqueue/dispatcher/dispatcher.go:177-194 | A key listed once and not queued before starts with the priority and delay it was listed with. |
| Dispatcher.Settle | workqueue/dispatcher/dispatcher.go:150-272 | The key is released in every case. RequeueAfter: back with its owner's priority at now + delay, a floored delay clamped to an hour, attempts zero. A retriable failure below the limit: back at now + backoff with its attempts. Success, a non-retriable failure or the limit: the backlog stays. QueueKeys: every listed key is queued with its own priority and delay first. |
| DispatchProtocol.BackStepRequeues | workqueue/inmem/inmem.go:220-268 | The protocol's requeue step moves the queue as RequeueWithOptions does. |
| DispatchProtocol.ReturnSettles | workqueue/dispatcher/dispatcher.go:150-265 | The protocol's return step moves the queue as Settle does. |
| DispatchProtocol.QueueingSettles | workqueue/dispatcher/dispatcher.go:172-194 | The one-key-at-a-time steps of a QueueKeys result are a legal run that leads where Settle leads. |
| DispatchProtocol.SpawnMeans | workqueue/dispatcher/dispatcher.go:115-130 | A pass adds one closure a launched handle, and touches no other. |
| DispatchSafety.SingleOwner | workqueue/inmem/inmem.go:329-346 | With any number of overlapping passes, a key is in progress iff a live closure owns it, and no two own the same key. |
| DispatchSafety.StartsAreEndedOnce | workqueue/dispatcher/dispatcher.go:133-272 | Conservation for every key in every reachable state: its successful Starts number its endings, each one Complete, RequeueWithOptions or Deadletter of one closure, plus one exactly while it is in progress. |
| DispatchSafety.EndsAtMostOnce | workqueue/dispatcher/dispatcher.go:133-272 | A closure that has completed, requeued or dead-lettered its key never does so again. |
| DispatchSafety.StaysUntilStarted | workqueue/inmem/inmem.go:49-63 | A key in the backlog stays there until a later Start of that key; meanwhile a floor stays and never moves earlier. |
| DispatchSafety.CompletedAfterEverythingQueued | workqueue/dispatcher/dispatcher.go:170-194 | When a key was completed after a QueueKeys result, every listed key had been queued, and is there still or was started since. |
| DispatchSafety.EntriesAreMerged | workqueue/inmem/inmem.go:253-264 | In every reachable state an entry is what the calls that made it mean. |
| DispatchSafety.FloorIsNotUndercut | workqueue/inmem/inmem.go:148-152 | No pass before a floor's time lists the key until a Start removes it. |
| DispatchSafety.RequeueAfterWaits | workqueue/dispatcher/dispatcher.go:151-168 | From every reachable state: after RequeueAfter(d) of a key not in the backlog no pass before now + d, a floored d clamped to an hour, lists the key until its next Start; with a floor whatever is enqueued meanwhile, otherwise until another call of the key. |
| DispatchSafety.FailureWaits | workqueue/dispatcher/dispatcher.go:241-255 | The same for a retriable failure below the limit and its backoff. |
| DispatchSafety.AttemptsAreTries | workqueue/inmem/inmem.go:230-264 | In every run in which a key is not enqueued while in progress and is started from up-to-date handles, whatever its callback returns: its attempts, in the backlog or with its owner, are its tries. |
| DispatchSafety.TriesStep | workqueue/inmem/inmem.go:242-258 | What a try is: each successful Start of the key adds one, a new entry or a requeue with a Delay starts again from zero, and no other step of any closure changes the count. |
| DispatchSafety.TriesAreStarts | workqueue/inmem/inmem.go:341-356 | Between two resets the tries grow exactly by the successful Starts of the key. |
| DispatchSafety.FailureOfKey | workqueue/dispatcher/dispatcher.go:195-263 | One failure of a key, retriable or not, under those side conditions: dead-lettered iff its tries have reached maxRetry; otherwise a retriable one goes back with its attempts and a non-retriable one is completed. |
| DispatchSafety.FailureDeadLettersIff | workqueue/dispatcher/dispatcher.go:195-262 | In every state such a run reaches, whatever the callback returned before: a retriable failure dead-letters iff maxRetry is on and the key has had that many Starts since its entry began or was last requeued with a Delay; otherwise the key goes back. |
| DispatchSafety.DeadLetteredAtMaxRetry | workqueue/dispatcher/dispatcher.go:195-262 | From any such state in which the key waits with no try counted, or is not in the queue, and from which it always fails retriably: it is dead-lettered at exactly its maxRetry-th try, which without a reset in between is its maxRetry-th Start from there. |
| DispatchSafety.InProgressIsBounded | workqueue/dispatcher/dispatcher.go:100-112 | If no pass begins while closures of an earlier one have yet to Start, at most `concurrency` keys are in progress in every reachable state. |
| Template.IsValidIdentifier | agents/promptbuilder/tokenize.go:67-83 | Accepts exactly a letter followed by letters, digits and underscores. |
| Template.TrimMeans | agents/promptbuilder/tokenize.go:44 | Trimming takes the spaces at both ends and nothing else. |
| Template.FindPairFinds | agents/promptbuilder/tokenize.go:24-35 | The first doubled brace is found, or there is none. |
| Template.WalkTemplate | agents/promptbuilder/tokenize.go:19-63 | The walk is concatenation over one token list that depends on the template alone: inserted values are never scanned, and an error of the resolver precedes one further right in the template. |
| Template.PrintTokenizes | agents/promptbuilder/tokenize.go:19-63 | Parse, print, parse: printing the tokens of a template and scanning again yields the same tokens. |
| Template.PrintedHole | agents/promptbuilder/tokenize.go:32-56 | A printed placeholder after brace-free text scans back as that text and that name. |
| Template.BraceScans | agents/promptbuilder/tokenize.go:32-56 | What any pair of double braces scans to: the trimmed name between them, or an error that quotes it. |
| Template.SpacedHole | agents/promptbuilder/tokenize.go:42-52 | A name with spaces on either side inside double braces scans to that name. |
| Template.TextScans | agents/promptbuilder/tokenize.go:24-29 | Text without double braces is one piece of text, kept whole. |
| Template.UnclosedScans | agents/promptbuilder/tokenize.go:34-39 | Double braces that are never closed are refused. |
| Prompts.NewPrompt | agents/promptbuilder/prompt.go:36-56 | Succeeds iff the template scans; the stored template is its printed tokens, its bindings are exactly its names, and the library stays well formed. |
| Prompts.StoredTemplateIsFixpoint | agents/promptbuilder/prompt.go:39-55 | Walking a stored template under the identity resolver gives it back, with the same tokens and names. |
| Prompts.CollectMeans | agents/promptbuilder/prompt.go:41-47 | The collecting callback gathers exactly the names and reproduces the template. |
| Prompts.BindKeepsLibrary | agents/promptbuilder/prompt.go:70-80 | Binding makes a new prompt and leaves every existing one as it was; composition stays acyclic and bound list items stay single lines. |
| Prompts.BoundOnce | agents/promptbuilder/bindings.go:133-142 | A placeholder that has been bound cannot be bound again. |
| Prompts.BindsIff | agents/promptbuilder/prompt.go:70-152 | Exactly which bindings are accepted, down to the seven line-break characters, and which of the two errors checked first is returned. |
| Prompts.BindsCommute | agents/promptbuilder/prompt.go:70-80 | Two placeholders bound in either order make the same prompt. |
| Prompts.ListValue | agents/promptbuilder/bindings.go:86-96 | One line an item, its number and a dot or a dash before it, joined by line breaks. |
| Prompts.DecimalReadsBack | agents/promptbuilder/bindings.go:90 | Item numbers are decimal: digits only, no leading zero, and they read back as the number. |
| Prompts.FirstMultiLineFindsTheFirst | agents/promptbuilder/prompt.go:130-134 | The line-break check reports the first offending item, and none exactly when every item is a single line. |
| Prompts.BoundListHasOneLineAnItem | agents/promptbuilder/prompt.go:110-136 | Every list bound in a prompt of a well-formed library renders exactly one line an item. |
| Build.SpenderFills | agents/promptbuilder/prompt.go:202-213 | The charging walk yields plain substitution and the exact bytes, or fails iff the bytes exceed the limit. |
| Build.BindingValue | agents/promptbuilder/bindings.go:115-129 | A memo hit and a fresh build give the same plain value; a composed prompt is charged once; depth is restored. |
| Build.BuildValues | agents/promptbuilder/prompt.go:185-193 | In any iteration order the values are the plain ones, and the state afterwards does not depend on the order. |
| Build.BuildNode | agents/promptbuilder/prompt.go:180-214 | A build under any sound memo yields the plain output and charges each newly composed prompt once. |
| Build.BuildPrompt | agents/promptbuilder/prompt.go:154-178 | Memo soundness: a result is the plain substitution. Budget: root and distinct composed outputs together fit 64 MiB. For prompts nesting at most 100 deep, success iff everything is bound and the per-occurrence total fits. |
| BuildResults.BuildLiterals | agents/promptbuilder/prompt.go:36-214 | NewPrompt, a Bind for each name and Build: the result is the stored template with each placeholder replaced by the string bound to it, and the build succeeds exactly when template and replacements fit into 64 MiB. |
| BuildResults.BuildOfParts | agents/promptbuilder/bindings.go:29-129 | What each binding puts at its placeholders: a literal its string, marshalled data its text, a list its lines, a composed prompt exactly what it builds to by itself; the template's text stays around them. With a name unbound or data that would not marshal the build fails. |
| BuildResults.PlainMeans | agents/promptbuilder/prompt.go:185-213 | The reference build is the template with those contributions put in. |
| BuildResults.PlainFails | agents/promptbuilder/prompt.go:187-191 | It fails with a name unbound, with data that would not marshal and with a composed prompt that fails. |
| BuildResults.CostMeans | agents/promptbuilder/prompt.go:195-213 | The charge of one prompt is its template and everything its placeholders were replaced by. |
| BuildResults.NestsWithinIff | agents/promptbuilder/prompt.go:154-156 | Nesting at most d deep means that no path of compositions has more than d links. |
| Build.OutputWithinCost | agents/promptbuilder/prompt.go:158-162 | No output is longer than what its prompt was charged. |
| Build.LengthsWithinTotal | agents/promptbuilder/prompt.go:158-162 | Hence the distinct composed outputs together are no longer than the charge. |
| Build.ReachesSmaller | agents/promptbuilder/prompt.go:142-152 | A prompt composes only prompts made before it. |
| Utf8.TruncateUTF8 | agents/checkpoint/answer.go:104-114 | The loop backs off to the last place where a rune starts. |
| Utf8.EncodeRuneDecodes | agents/checkpoint/answer.go:102-114 | The modelled bytes are UTF-8: as many as section 3 of RFC 3629 gives the character, with the character as payload. |
| Utf8.TruncatedIsLongestPrefix | agents/checkpoint/answer.go:102-114 | On valid UTF-8 (section 3 of RFC 3629) the cut is the encoding of whole characters of the text. |
| Utf8.FittingIsLongest | agents/checkpoint/answer.go:102-114 | and no longer prefix of characters fits into the limit. |
| Answer.StripAnswerDelimiters | agents/checkpoint/answer.go:94-100 | The loop terminates with neither delimiter left, and has removed delimiters only. |
| Answer.EraseShortens | agents/checkpoint/answer.go:95-98 | A replacement shortens the text iff the delimiter occurs, and otherwise keeps it. |
| Answer.StrippedIsTheRemainder | agents/checkpoint/answer.go:77-100 | Stripping removes delimiters and nothing else, and is independent of the order: a text is what stripping yields iff some order of single removals reaches it and it holds no delimiter. |
| Answer.RemovalsCommute | agents/checkpoint/answer.go:94-100 | Two delimiter occurrences never overlap, and removing them in either order gives the same text. |
| Answer.CappedStaysClean | agents/checkpoint/answer.go:67-72 | Capping never puts a delimiter together, and adds at most the marker. |
| Answer.CappedText | agents/checkpoint/answer.go:67-72 | A cap on valid text keeps exactly the longest prefix of whole characters that fits, plus the marker. |
| Answer.FrameAnswer | agents/checkpoint/answer.go:43-55 | Between the delimiter lines stands what is left of the trimmed answer once its delimiters are removed, in whatever order, and it is trimmed again: the text itself if it fits, the placeholder if it is empty, or its beginning up to the last place within the limit where a rune may start, with the marker. |
| Answer.FramesText | agents/checkpoint/answer.go:67-72 | Of over-long valid text that beginning is the longest run of whole characters that fits. |
| Answer.FrameIsABoundary | agents/checkpoint/answer.go:43-55 | Whatever the human wrote, the frame has exactly one opening delimiter, at its start, and one closing delimiter, at its end; between them stands a non-empty, delimiter-free body of bounded length. |
| Answer.PlainAnswerIsKept | agents/checkpoint/answer.go:43-55 | An answer that needs no treatment is framed byte for byte. |
| Answer.FrameKeepsValid | agents/checkpoint/answer.go:43-55 | Valid UTF-8 stays valid through stripping, capping and framing. |
| Answer.FramedAnswers | agents/checkpoint/lifecycle.go:175-194 | One frame a pending call, in order, with the default cap for non-positive limits; an error iff there is no call or one without an ID. |
| BlobSpec.LessTotal | store/blob/mem.go:126 | Byte-wise order on names is total and strict. |
| BlobSpec.LessIff | store/blob/mem.go:126 | A name comes first iff it is smaller at the first byte that differs, or is a proper beginning of the other. |
| BlobSpec.HasPrefixIff | store/blob/mem.go:121-124 | A name matches iff it is the prefix followed by something. |
| BlobSpec.PageLength | store/blob/mem.go:113-137 | A page is as long as its limit, a hundred if that is not positive, or shows all that is left. |
| BlobSpec.AscendingIsUnique | store/blob/mem.go:120-126 | A set of names has one ascending listing, so map order cannot show. |
| BlobSpec.EmptyCursorMeansExhaustedIff | store/blob/mem.go:137-143 | The cursor is empty exactly when the listing is exhausted, if and only if the page is not a first page of one, over all objects, with an object named "" and others. |
| BlobSpec.EmptyCursorIsNotTheEnd | store/blob/mem.go:137-143 | Two Puts from an empty bucket lead to a first page with an empty cursor and an object still to come. |
| BlobSpec.UnconditionalPutLands | store/blob/mem.go:47-63 | An unconditional write goes through whatever is there, touches no other object, and takes the next generation. |
| BlobSpec.CreateOnlyLandsIff | store/blob/mem.go:48-51 | A create-only write lands iff the name is free, whatever generation it also names. |
| BlobSpec.MatchingPutLandsIff | store/blob/mem.go:52-55 | A write conditional on a generation lands iff the object carries it. |
| BlobPaging.PageMeans | store/blob/mem.go:128-144 | A page lists exactly the matching names after its cursor and up to its own. |
| BlobPaging.PagesAscend | store/blob/mem.go:110-145 | Following cursors under any Puts and Deletes in between yields strictly increasing names, so none twice, wherever the caller stops. |
| BlobPaging.ListedIffPresentWhenCovered | store/blob/mem.go:110-145 | Wherever the caller stops: a matching object up to there is listed, with its generation, iff it was there when the page covering its place in the order was taken. |
| BlobPaging.PresentThroughoutIsListed | store/blob/mem.go:110-145 | Every matching object present throughout is listed. |
| BlobPaging.StillPagesAreTheListing | store/blob/mem.go:110-145 | With nothing written in between, the pages concatenate to the full sorted listing. |
| BlobRuns.CasIffUntouched | store/blob/mem.go:38-63 | Over every run, a write or delete conditional on a generation once current goes through iff nothing has touched the object since, and the object is then still what was read. |
| BlobRuns.CreateOnlyWinsOnce | store/blob/mem.go:47-51 | A create-only write of a name that exists can succeed later only after a delete of it. |
| BlobRuns.InvStays | store/blob/mem.go:59-62 | Stored generations are positive and below the next one in every reachable state. |
| Blob.Mem.Put | store/blob/mem.go:38-63 | Fails iff the condition does, with DoesNotExist taking precedence; otherwise stores the bytes the slice had, in memory of its own, under the next generation. |
| Blob.Mem.Get | store/blob/mem.go:67-77 | Returns the stored bytes and generation in fresh memory, or reports absence. |
| Blob.Mem.Delete | store/blob/mem.go:85-100 | Which of the two errors is returned, and removal exactly when neither is. |
| Blob.Mem.List | store/blob/mem.go:110-145 | The page is a function of the contents, prefix, limit and cursor alone, and never longer than the limit. |
| Blob.Mem.NamesFrom | store/blob/mem.go:117-135 | What is past the binary search is exactly the sorted rest of the listing. |
| Blob.BinarySearch | store/blob/mem.go:131-134 | The search splits the names at the target and says whether it is there. |
| BlobIsolation.CallerWritesAreInvisible | store/blob/mem.go:58-77 | Callers may write all bytes they ever allocated, put or got; the contents of the backend stay the same. |
| BlobIsolation.Callers.Put | store/blob/mem.go:58-63 | Putting bytes callers hold keeps the backend's memory out of their reach. |
| BlobIsolation.Callers.Get | store/blob/mem.go:67-77 | So does handing out bytes, which callers may write from then on. |
| BlobIsolation.PutWriteGet | store/blob/mem.go:58-77 | A Put that lands, any sequence of byte writes by callers to what they hold, and a Get: the bytes come back as they were put. |
| Resync.New | reconcilers/resync/sharder.go:79-116 | Sharders keep the given start, tick, concurrency and priority, with a positive tick of whole minutes and a positive concurrency; an error names what is wrong. |
| Resync.Process | reconcilers/resync/sharder.go:127-171 | In any iteration order, exactly the keys of this shard are sent, once each, with the delay to their target at the time of sending; an error iff one was refused. |
| Resync.InShardIff | reconcilers/resync/sharder.go:135-148 | A key is in the shard iff its minute lies in the firing's tick window of the period. |
| Resync.InShardMeans | reconcilers/resync/sharder.go:135-149 | A key is in the shard iff its due minute, the period's start plus its hash under the period's salt, lies in the firing's tick window; its target is that minute plus the lateness of the firing. |
| Resync.DueOnceIffItsWindowFiresOnce | reconcilers/resync/sharder.go:135-148 | A key is due exactly once in a period iff the window holding its minute sees exactly one firing. |
| Resync.ExactlyOncePerPeriod | reconcilers/resync/doc.go:20-22 | With one firing a tick window, every key is due in exactly one firing of the period, whatever the hash. |
| Resync.TargetInTick | reconcilers/resync/sharder.go:149 | A target lies in [start, start + tick), at the key's own minute plus the lateness of the firing. |
| Resync.DelaySeconds | reconcilers/resync/sharder.go:162 | Late work is due now; early work falls due within the second before its target. |
| Resync.WindowStarts | reconcilers/resync/sharder.go:135-138 | Tick windows start at whole ticks of the period and number period / tick. |
| Backoff.CurveMonotone | breaker/breaker.go:128-136 | The capped doubling curve never falls, starts at the base and stays under the cap. |
| Backoff.CurveDoubles | breaker/breaker.go:131-135 | Each attempt waits twice as long as the one before, up to the cap. |
| BreakerSpec.Jittered | internal/jitter/jitter.go:19-24 | Jitter stretches a positive duration to less than twice its length, and leaves any other alone. |
| BreakerSpec.ProbeSpacing | breaker/breaker.go:85-104 | Two probes granted to a key whose circuit stays open are at least min(base * 2^(n-1), max) apart for the n failures at the first, hence at least that for n = threshold. |
| BreakerSpec.StaysCool | breaker/breaker.go:99-126 | While a circuit stays open, neither failures nor refused calls nor further probes bring its next probe forward. |
| BreakerSpec.FailuresAreConsecutive | breaker/breaker.go:85-126 | The counter is the number of failures since the last success, so exactly the threshold-th opens the circuit. |
| BreakerSpec.RefusalsAreBounded | breaker/breaker.go:94-97 | In every reachable state a refused caller is told to wait less than twice min(base * 2^(n-1), max). |
| Breaker.Breaker.Allow | breaker/breaker.go:85-105 | Grants iff the key has fewer failures than the threshold or its time has come; a refusal reports what is left and changes nothing; a probe keeps the failures and sets the next time by the jittered curve. |
| Breaker.Breaker.RecordSuccess | breaker/breaker.go:108-112 | Forgets the key, which closes its circuit. |
| Breaker.Breaker.RecordFailure | breaker/breaker.go:116-126 | Counts one failure more and returns the jittered wait after which the key may be tried. |
| Breaker.Breaker.Backoff | breaker/breaker.go:130-136 | The doubling loop is the closed form, for every tuning. |
| Breaker.CurveReached | breaker/breaker.go:131-135 | Where the loop stops, the cap or the last step has been reached. |

## Left out

- int64 overflow: durations, counters and `attempts * BackoffPeriod` are unbounded integers, so wrap-around of very long
  backoffs is not modelled.
- Concurrency inside one method: the classes show the uninterrupted run of each operation; interleavings are in
  `SuspendProtocol` and `DispatchProtocol`, whose steps the methods are proved to take.
- Store and question-store I/O errors other than the modelled faults (hook, nonce, Ask, Pending, Answer, Consume); the
  protocol also lets a Wake stop at any point before its commit (`WakeAbort`).
- Nonce randomness: a nonce is required not to have been used before.
- `QuestionFromPending`: it parses JSON; the question text is a parameter of Suspend.
- The depth error of a build that nests deeper than 100: a memo hit skips the check, so success then depends on map order,
  and nothing is claimed of it.
- Prompt strings that are not valid UTF-8: templates and values are sequences of characters, with byte lengths counted as
  UTF-8. Answers and blob names are bytes.
- XML, JSON and YAML marshalling, Unicode tables, `strings.TrimSpace` on answers and SHA-256 are unknown functions with the
  few facts the proofs need.
- `Get` and `IsOrphaned` of the queue: the former only reports, the latter is always false in memory.
- Dispatcher events, logging, metrics and `ServiceCallback`.
- Rounding in `Duration.Seconds()`: the sharder's delay is the exact quotient.
- Cancellation in `Process` of the sharder: whether the workqueue takes a key is a parameter, so a cancelled enqueue is one
  that was not taken; which of several errors is returned is left open.
- LLM executors, provider wiring, cloud stores, auth and tracing.
- Clocks before Go's zero time: Suspend takes a clock reading that is not negative, so that a stamped deadline is never the
  zero time.
- Clocks that run backwards: probe spacing and the bound on refusals take the times of a run to be non-decreasing.
- Termination of callbacks: a closure gives its key up at most once, and is its only owner until it does; that every
  callback returns is not claimed.
- Nil arguments of `suspend.New` and `Suspend`, and the text of error messages.
