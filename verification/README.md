# modeld: the instance manager and its token stream

modeld serves local language models. Its manager (`internal/manager`) keeps loaded model instances
within a VRAM budget, evicts the least recently used idle ones, admits requests to each instance
through a queue channel and a single generation channel, and streams tokens as NDJSON lines that two
web pages and a log writer cut apart again. This project models those parts and proves what they
promise, and, where they do not keep a promise, exactly when they do.

The manager is modelled twice.

* `Interleaving` is a transition system. Every critical section under `m.mu`, every channel operation
  and every read of a channel length is one step of one call; any number of `EnsureInstance`,
  `EnsureModel`, `Unload` and `beginGeneration` calls interleave. The environment chooses timeouts,
  cancellations, file sizes, passed deadlines and map iteration order. Statements about channels are per
  heap object, since a request can go on running on an instance that has left the map.
* `Managing` is the manager as an object, one whole operation at a time: a map of heap instances, a
  counter, and the scan for the oldest idle instance, proved to act on a recency list exactly as the
  functions of `Lru` do.

| file | what it covers |
|---|---|
| `Interleaving.dfy` | the steps of all calls, runs, well-formedness |
| `History.dfy` | what each field means: the last step of the right kind put its value there |
| `Calls.dfy` | what the outcome of a call says about everything the call saw and did |
| `Accounting.dfy` | what `usedEstMB` means in every reachable state |
| `Overshoot.dfy` | how far concurrent loads exceed the budget, and runs that get there |
| `Slots.dfy` | the two channels of each instance: safety, progress, no leak |
| `Drain.dfy` | what `Unload` and the eviction scan may conclude from their reads |
| `Status.dfy` | `m.state`, `m.err`, `m.cur` and `Ready` |
| `Termination.dfy` | nothing but a re-polling `Unload` can run for ever |
| `Lru.dfy`, `Managing.dfy` | the recency list and the object that implements it |
| `Output.dfy`, `Adapters.dfy` | `writeAll` and `onTok`, the two adapter loops |
| `Upstream.dfy` | upstream bodies, event by event, and what the adapters hear of them |
| `Sessions.dfy`, `Inference.dfy` | what any adapter can do behind `Generate`, and `Infer` |
| `JsonText.dfy`, `Decimals.dfy`, `Text.dfy` | JSON lines, decimal rendering, newline splitting |
| `Readers.dfy`, `Streaming.dfy` | the web pages, the log writer, and the whole way from upstream to page |

## Where the code does less than it says

* README.md line 223 says idle instances are evicted when the budget would be exceeded. Three things let
  the budget be exceeded all the same. Eviction returns success without room once its deadline has passed
  (`Lru.DeadlineExit` says exactly when). Loads that pass the fit check together are not counted against
  one another (`Overshoot.BoundedOvershoot` bounds this and `Overshoot.OvershootAttained` attains it for
  every number of loads, size, budget and margin). A cancelled load stays in the map without being counted:
  `Lru.RunBalanceIff` and `Accounting.CounterExactIff` say exactly when the counter is then wrong, and
  `Overshoot.MapWithinBudget` bounds what is in the map.
* `Unload` clamps the counter at zero. Even with fixed file sizes and no cancelled load that clamp can
  fire, and the counter then overstates the map for good (`Overshoot.UnloadDuringLoad`).
  `Accounting.CounterExactIff` covers this too.
* `Infer` leaves it to the adapter to stop with an error when the token callback fails. An adapter that goes
  on, or that stops without an error, can make it send half a line followed by other lines and report success
  (`Inference.CarelessSessionGarbles`). `Inference.CleanIff` says for exactly which adapters the stream stays
  clean: those that, the first time a token is refused, end there and then without returning normally. Both
  llama adapters do (`Inference.LlamaIsPrompt`).
* The comment at `internal/manager/inference.go` line 57 speaks of a FIFO queue. The code leaves the order
  of waiters to the channel runtime, so nothing here depends on it.
* HaikuPage's two reading paths treat a reply cut inside a token's last newline differently: the streaming one
  forgets that token unless it has nothing else (`Streaming.UnterminatedToken` says exactly when they agree).
* `itoa` of `internal/httpapi/metrics.go` has four bytes: it is right for 0 to 9999, empty for negative
  numbers, and panics above (`Decimals.Itoa`).

## Model

| member | source | states |
|---|---|---|
| Interleaving.NextKeepsShape | internal/manager/instance_ensure.go:14-142 | whatever step any call takes, the map key stays the instance's own id, the scanner owns the lock, only the moving call changes its place, and the other operations' calls stay the kind they are |
| Interleaving.RunShape | internal/manager/config.go:45-68 | every state reachable from a fresh manager is well formed |
| History.StampIsLastUse | internal/manager/instance_ensure.go:32-36 | in every reachable state the stamp of an object is the time of the step that last used it: a hit, a load beginning, a commit, or an admission |
| History.StampsOrderUses | internal/manager/queue_admission.go:56-58 | of two objects one is older if and only if the step that last used it came first, and no two were last used at once |
| History.InstanceIsLastGiven | internal/manager/instance_ensure.go:70-85 | an instance is loading, ready or draining as the last load, commit or unload mark of it says, and estimated at the size it was last loaded with |
| History.MapIsLastEntry | internal/manager/unload.go:48-56 | a model is mapped to the object its last load inserted if and only if no eviction or Unload has removed it since |
| History.StatusIsLastReport | internal/manager/instance_ensure.go:159-179 | state and error text are those of the last load or switch to begin, end or fail |
| Calls.OutcomeTells | internal/manager/instance_ensure.go:26-58 | on every run, where a call stands and what it returned tell what it saw and did: an ensure evicts or loads only for a registered model it saw not ready, and only under a budget evicts; each outcome of ensure, request, Unload and EnsureModel has its cause on the way |
| Calls.HitChangesNothingElse | internal/manager/instance_ensure.go:26-37 | an ensure that has only found its model ready changes no map entry, no counter, no status and no object but for a stamp |
| Calls.LoadHadRoomOrWasLate | internal/manager/instance_evict.go:8-47 | on every run, under a budget a load goes ahead only after a check at which it fitted, or past the eviction deadline |
| Calls.LeavesEvictionIff | internal/manager/instance_evict.go:45-47 | a step ends eviction if and only if the load fits or the deadline has passed |
| Calls.LeavesDrainIff | internal/manager/unload.go:25-39 | a step ends the drain loop as drained if and only if both lengths read are zero, as late if and only if one is not and the deadline has passed |
| Calls.CanAlwaysLeave | internal/manager/queue_admission.go:30-64 | a waiting request can time out or be cancelled at any moment, and warmups and deadlines never hold a call that could move |
| Accounting.StepConserves | internal/manager/instance_ensure.go:127-138 | no step of any call changes the difference between the counter with everything it has not been told about and the estimates in the map |
| Accounting.Conservation | internal/manager/instance_ensure.go:61-138 | in every reachable state, counter + pending loads + abandoned loads + re-estimates = sum of the estimates in the map + what the clamp put back |
| Accounting.SteadyCounter | internal/manager/instance_evict.go:41-42 | with fixed file sizes the counter is the map's sum less the pending loads if and only if what cancelled loads left uncounted equals what the clamp put back |
| Accounting.StepAbandons | internal/manager/instance_ensure.go:119-124 | with fixed sizes, a step adds to what is left uncounted exactly when it cancels a load that inserted its instance |
| Accounting.CounterExactIff | internal/manager/unload.go:48-55 | with fixed sizes, cancellations included: nothing is uncounted iff no load that inserted its instance was cancelled; nothing was clamped iff every removal by Unload found the uncounted loads covered by the rest of the map; and if either holds, the counter is right iff the other does too |
| Accounting.StepClamps | internal/manager/unload.go:50-55 | a step adds to what was clamped exactly when it removes an instance estimated above the counter |
| Accounting.NoClampWithoutPending | internal/manager/unload.go:51-54 | if no load was cancelled and no Unload removed its instance while a load was pending, the clamp never fired and the counter is exact |
| Overshoot.StepWithin | internal/manager/instance_evict.go:10-14 | one step of any call keeps counter + reservations within budget + (n - 1) r, even a clamped removal |
| Overshoot.BoundedOvershoot | internal/manager/instance_ensure.go:52-58 | with at most n loads of at most r MB in flight and no deadline exit, every reachable state has counter + reservations + margin <= budget + (n - 1) r |
| Overshoot.SerialLoadsKeepBudget | internal/manager/instance_ensure.go:127-132 | loads one at a time never take the counter past the budget, whatever else interleaves; what this says of the map is in the next two rows |
| Overshoot.MapWithinBudget | internal/manager/instance_ensure.go:119-132 | under the hypotheses of BoundedOvershoot, sum over the map + clamped + margin <= budget + (n - 1) r + abandoned loads + re-estimates |
| Overshoot.SteadyMapWithinBudget | internal/manager/instance_ensure.go:52-86 | with fixed sizes and no load cancelled after it inserted its instance, the sum over the map keeps the bound of the counter, and the budget itself when loads come one at a time |
| Overshoot.OvershootAttained | internal/manager/instance_ensure.go:51-86 | for every n, r, budget and margin that the bound allows, some run within its hypotheses, all of whose calls succeed, ends exactly at the bound |
| Overshoot.UnloadDuringLoad | internal/manager/unload.go:48-56 | a run without cancellations that ends with nothing in the map and a counter of 5 |
| Slots.StepKeepsSlots | internal/manager/queue_admission.go:30-64 | every step keeps both channel lengths equal to the requests holding those slots, with at most one generating and at most depth queued, for every object |
| Slots.SlotSafety | internal/manager/queue_admission.go:30-59 | in every reachable state, in the map or orphaned, len(genCh) <= 1 and len(genCh) <= len(queueCh) <= depth, and both lengths count their holders |
| Slots.ReleaseNeverBlocks | internal/manager/queue_admission.go:59 | each receive of the release closure and of the rollback finds a token |
| Slots.AdmissionIff | internal/manager/queue_admission.go:30-59 | a request can take a queue slot exactly when fewer than depth requests hold one of that object, and the generation slot exactly when none generates on it |
| Slots.NoDeadlock | internal/manager/queue_admission.go:30-64 | while any call is unfinished, some call has a step that is no timeout, cancellation or deadline |
| Slots.RequestProgress | internal/manager/queue_admission.go:39-64 | with the lock free, an unfinished request means some request can move |
| Slots.StuckMeansDone | internal/manager/queue_admission.go:41-45 | a run that cannot go on has finished every call and left every channel of every object empty |
| Slots.RequestsTerminate | internal/manager/queue_admission.go:10-65 | requests take at most seven steps each, whatever else happens |
| Drain.MarkedEarlier | internal/manager/unload.go:15-22 | an Unload in or past its loop did mark that very object as draining |
| Drain.DrainSound | internal/manager/unload.go:25-39 | an Unload that saw both lengths at zero, at different moments, implies one instant after its mark at which nobody held either slot |
| Drain.DrainingStep | internal/manager/queue_admission.go:18-20 | a draining object stays so until, and exactly until, an ensure overwrites its state, and nobody new gets past the check in that step |
| Drain.DrainShrinks | internal/manager/unload.go:21-25 | along a run that does not reopen the object, the requests past the check only become fewer |
| Drain.DrainConverges | internal/manager/unload.go:25-39 | once nobody is past the check, both channels stay empty and each step of the watching Unload brings it nearer its normal exit, never back to polling |
| Drain.ScanSound | internal/manager/instance_evict.go:15-25 | during the scan the candidate was idle in the map at one instant, and every instance already passed over was busy at one instant or is no older |
| Drain.VictimWasIdleAndOldest | internal/manager/instance_evict.go:15-42 | the victim was idle in the map at one instant of the scan, and every other mapped instance was busy at one instant of it or has been used, by a hit, load, commit or admission, since the victim last was |
| Drain.RefusalMeansAllBusy | internal/manager/instance_evict.go:26-30 | an over-budget refusal means every instance in the map was busy at some instant of the scan |
| Status.StatusInvariant | internal/manager/instance_ensure.go:159-179 | in every reachable state the error text is set exactly in the error state, the manager itself never drains, and ready means no error |
| Status.ReportAfterLoad | internal/manager/instance_ensure.go:116-138 | right after a warmup, Ready reports true if and only if the load committed, and the state is error if and only if it was cancelled |
| Status.ReportIff | internal/manager/manager.go:117-131 | in every reachable state Ready reports true if and only if the last report is no error, and some model's last load is still mapped and was last committed, or the last report is a success and a model is current |
| Status.CurrentIff | internal/manager/unload.go:57-59 | in every reachable state a model is current if and only if it was the last to be loaded or switched to and has not been unloaded since; eviction does not clear it |
| Termination.StepIsProgress | internal/manager/instance_evict.go:8-49 | every step but Unload's re-poll decreases a well-founded measure of evictable instances, stages and reads left |
| Termination.EndlessMeansPolling | internal/manager/unload.go:26-38 | every infinite behaviour goes back to polling, again and again |
| Lru.EvictShortestPrefix | internal/manager/instance_evict.go:8-49 | the victims are the shortest prefix of the idle entries, in recency order, that makes room; a refusal dropped them all; only the deadline stops short of either |
| Lru.EvictSucceedsIff | internal/manager/instance_evict.go:8-30 | without the deadline, eviction succeeds if and only if dropping every idle entry would make room, and success means room |
| Lru.DeadlineExit | internal/manager/instance_evict.go:45-47 | eviction succeeds without room if and only if the deadline passes during an eviction after which the load still does not fit |
| Lru.EvictKeepsPinned | internal/manager/instance_evict.go:18-21 | entries with a held slot survive, in order |
| Lru.LoadInTwoSteps | internal/manager/instance_ensure.go:60-138 | a load places its entry last and, if the warmup succeeds, marks it ready where it stands and counts it only if new; if not, the entry stays uncounted |
| Lru.EnsureOutcome | internal/manager/instance_ensure.go:14-58 | every outcome as an if-and-only-if over the state before: not found, over budget, cancelled, succeeded, never too busy; a hit moves its entry to the back and changes nothing else; a refusal has dropped every idle entry and no other |
| Lru.EnsureLoads | internal/manager/instance_ensure.go:51-138 | a load that goes ahead drops the shortest sufficient prefix of the idle entries, or what the deadline allowed, and leaves its model last, with its size, ready, counted if new, and current; or loading and uncounted if the warmup breaks |
| Lru.BeginOutcome | internal/manager/queue_admission.go:10-64 | every outcome of an admission as an if-and-only-if over the entry; success takes both slots and moves the entry to the back, anything else leaves no trace |
| Lru.ReleaseOutcome | internal/manager/queue_admission.go:59 | one slot of each channel comes back and nothing else changes |
| Lru.UnloadOutcome | internal/manager/unload.go:11-60 | not found or removed, with the estimate taken off but not below zero, and the current model forgotten if it was the one |
| Lru.RunKeepsSlots | internal/manager/queue_admission.go:30-59 | after any operations every instance has at most one generation, as many queue slots taken, and no more than the depth |
| Lru.StatusIsLastLoad | internal/manager/instance_ensure.go:61-138 | after any operations state and error text are those of the last load that went ahead |
| Lru.CurrentIff | internal/manager/unload.go:57-59 | after any operations a model is current if and only if it was the last to be loaded and has not been unloaded since |
| Lru.EnsureBalanceIff | internal/manager/instance_ensure.go:49-138 | from a balanced state, an ensure keeps the counter equal to the sum and within the budget if and only if it is no cancelled load and no load that goes ahead without room; a cancelled load leaves its whole estimate uncounted |
| Lru.ApplyBalanceIff | internal/manager/instance_ensure.go:26-138 | the same for any whole operation |
| Lru.RunBalanceIff | internal/manager/unload.go:48-60 | along any sequence of whole operations every state is balanced if and only if no load in it is cancelled or goes ahead without room |
| Lru.CancelledLoadBreaksBalance | internal/manager/instance_ensure.go:119-125 | a concrete run on the failing side: after one cancelled load a second one fits, and the map holds twice the budget |
| Lru.ListIsLastUseOrder | internal/manager/queue_admission.go:52-58 | after any sequence of operations the list is in the order of the last operation that used each model |
| Managing.Manager.constructor | internal/manager/config.go:45-52 | a new manager is the empty list with counter zero |
| Managing.Manager.Touch | internal/manager/instance_ensure.go:34 | stamping an instance moves its entry to the back and nothing else |
| Managing.Manager.Write | internal/manager/instance_ensure.go:81-85 | overwriting one instance's fields changes its entry alone |
| Managing.Manager.Forget | internal/manager/instance_evict.go:41 | deleting a key drops exactly its entry |
| Managing.Manager.Insert | internal/manager/instance_ensure.go:70-80 | a new instance goes to the back, loading, with empty channels |
| Managing.Manager.OldestIdle | internal/manager/instance_evict.go:15-25 | the scan, in any iteration order, finds the first idle entry of the list, or nothing when all are pinned |
| Managing.Manager.OldestIsFirst | internal/manager/instance_evict.go:22-24 | an idle instance no younger than any idle one is the first idle entry |
| Managing.Manager.EvictUntilFits | internal/manager/instance_evict.go:6-50 | the loop over map and timestamps leaves the list, counter and verdict of Lru.Evict, of which Lru.EvictShortestPrefix says what they are |
| Managing.Manager.EnsureInstance | internal/manager/instance_ensure.go:14-142 | the list, counter, status and outcome of Lru.Ensure, of which Lru.EnsureOutcome and Lru.EnsureLoads say what they are; outright, a ready model succeeds, is stamped, and map and counter stay |
| Managing.Manager.LoadInstance | internal/manager/instance_ensure.go:60-138 | insert or reuse, warm up, commit or give up: the list, counter, state, error and current model of Lru.Load |
| Managing.Manager.Commit | internal/manager/instance_ensure.go:127-138 | the youngest entry becomes ready and current, the counter grows by what it is told, state and error are reset |
| Managing.Manager.MarkReady | internal/manager/instance_ensure.go:133-134 | committing marks the youngest entry ready where it stands |
| Managing.Manager.Place | internal/manager/instance_ensure.go:68-85 | the loading instance is last, new exactly when the map did not have it, and keeps its channels when it did |
| Managing.Manager.BeginGeneration | internal/manager/queue_admission.go:10-60 | succeeds if and only if the instance is mapped, not draining, idle of generations and below its queue depth and the caller stays; then one generation runs and one more queue slot is taken, within the depth; the list is that of Lru.Begin |
| Managing.Manager.Acquire | internal/manager/queue_admission.go:52-58 | taking the generation slot stamps the instance and moves its entry to the back |
| Managing.Manager.Release | internal/manager/queue_admission.go:59 | gives back both slots of its own instance, and changes the list only if that instance is still in the map |
| Managing.Manager.Unload | internal/manager/unload.go:11-64 | the removed instance is left draining, with empty channels if and only if no timeout is reported; list, counter and current model as in Lru.Unload, drained or not |
| Managing.Manager.Drain | internal/manager/unload.go:25-39 | the running request leaves if and only if it finishes before the last read; the loop reports a drain if and only if both channels are then empty; nothing else changes |
| Managing.Manager.ReadyReport | internal/manager/manager.go:117-131 | true if and only if there is no error and some instance is ready, or the manager is ready with a current model |
| Decimals.DecimalDenotes | internal/manager/manager.go:103-115 | the decimal form is all digits, denotes the number, and starts with 0 only for zero |
| Decimals.DecimalInjective | internal/manager/manager.go:103-115 | two numbers render alike if and only if they are equal |
| Decimals.DigitsLength | internal/manager/manager.go:107-113 | k digits suffice if and only if the number is below ten to the k |
| Decimals.FillDigits | internal/httpapi/metrics.go:111-118 | filling from the end leaves the digits in the buffer's tail, and runs off the front if and only if there are too many |
| Decimals.FmtUint | internal/manager/manager.go:103-115 | twenty bytes suffice for every uint64, and the result is its decimal form |
| Decimals.Itoa | internal/httpapi/metrics.go:107-119 | agrees with fmtUint on 0..9999, is empty below, panics above |
| Decimals.OpCounter.NextOpID | internal/manager/manager.go:97-100 | the counter advances modulo 2^64 and the id is "op-" followed by digits that denote it |
| Decimals.IdsRepeatOnlyOnWrap | internal/manager/manager.go:96-100 | two calls get the same id if and only if the counter wrapped a whole number of times between them |
| Text.LinesContinue | internal/httpapi/logging.go:25-39 | text that arrives later only continues the unterminated tail, so splitting does not depend on chunking |
| Text.SplitRejoins | internal/httpapi/logging.go:27-37 | lines, each with a newline, followed by the tail give the text back |
| Text.SplitIsPlain | internal/httpapi/logging.go:28-32 | no line and no tail contains a newline |
| Text.SplitUnique | web/src/pages/InferPage.tsx:78-86 | there is no other way to cut a text into newline-free lines and tail |
| Text.TrimSplits | internal/manager/adapter_llama_server.go:160-164 | every text is its trimmed form with white space around it, and that form has none on either end |
| Text.TrimPadded | web/src/pages/HaikuPage.tsx:82 | no other text is: trimming takes off exactly the white space around a trimmed text |
| Text.SpacesDiffer | internal/manager/adapter_llama_server.go:160 | the Go and the JavaScript notion of white space differ in U+0085 and U+FEFF only |
| JsonText.StringRoundTrip | internal/manager/inference.go:150-156 | reading an escaped string literal gives the string and the rest back |
| JsonText.EscapeInjective | internal/manager/inference.go:154 | two strings escape alike if and only if they are equal |
| JsonText.EscapeTouches | internal/manager/inference.go:150-156 | escaping changes a text if and only if it holds a quote, a backslash, a control character, or one of the characters escaped for HTML and JavaScript, and leaves none of those bare |
| JsonText.EscapesRead | web/src/pages/HaikuPage.tsx:87 | a backslash and a letter read as the code point of section 7 of RFC 8259, and as nothing if it gives none |
| JsonText.ValueRoundTrip | internal/manager/inference.go:131-137 | reading a printed value, whatever follows it, gives the value and the rest back |
| JsonText.RoundTrip | web/src/pages/HaikuPage.tsx:86-87 | parsing what was printed gives the value back |
| JsonText.PrintStaysOnLine | internal/manager/inference.go:137-141 | no printed value contains a newline |
| JsonText.ObjectLine | web/src/pages/HaikuPage.tsx:82-84 | a printed object is one non-empty line that trimming leaves alone |
| Output.WriteAll | internal/manager/inference.go:169-181 | the loop has the effect and verdict of WriteWhole, of which WriteIsPrefix and PatientWriter say what they are |
| Output.WriteIsPrefix | internal/manager/inference.go:169-181 | for every writer, short or failing, what it took is a prefix of the data, and all of it on success |
| Output.PatientWriter | internal/manager/inference.go:171-178 | a writer that may write short but never fails or stalls gets everything |
| Output.Sink.OnToken | internal/manager/inference.go:102-114 | the callback stops on a dead context, writes the token's line, and collects the token only once it is written |
| Output.FeedIsPrefix | internal/manager/inference.go:101-115 | however the callback ends, the writer holds a prefix of the token lines; if it never failed, all of them, and the content is their concatenation |
| Output.FeedSucceeds | internal/manager/inference.go:102-114 | with a patient writer and a live context no token stops the stream |
| Output.DeadContextStops | internal/manager/inference.go:103-106 | at most as many tokens get through as calls find the context alive, and nothing goes out after that |
| Adapters.GenerateServer | internal/manager/adapter_llama_server.go:155-206 | reading line by line, with its early continues, acts as one fold over the data payloads of the body; what those are is stated by Upstream.BodyHeard |
| Adapters.GenerateSubprocess | internal/manager/adapter_llama_subprocess.go:129-154 | likewise, with the subprocess adapter's reading of a payload |
| Adapters.FoldDelivers | internal/manager/adapter_llama_server.go:157-205 | exactly the non-empty tokens before `[DONE]` are delivered, in order, until the callback fails; else the last finish reason and the way the stream ended are reported |
| Adapters.AdaptersAgree | internal/manager/adapter_llama_subprocess.go:131-153 | if every payload before `[DONE]` has a choice or no non-empty content field, both adapters agree on tokens, finish reason and stopping point with every callback |
| Adapters.SubprocessTokensWithin | internal/manager/adapter_llama_subprocess.go:138-145 | on every stream the subprocess tokens are a subsequence of the server tokens |
| Adapters.SameTokensIff | internal/manager/adapter_llama_server.go:181-190 | the two token sequences are equal if and only if every payload has a choice or no non-empty content field |
| Upstream.BodyHeard | internal/manager/adapter_llama_server.go:158-192 | of a body made of any data lines, in any letter case and padding, and any other lines, ended by a literal `data: [DONE]` line or a clean close, both adapters hear exactly its events: tokens in order, last finish reason, and that it ended |
| Upstream.BodyPayloads | internal/manager/adapter_llama_subprocess.go:132-137 | the payloads of a body are the texts of its data lines, whatever follows |
| Upstream.DataPayload | internal/manager/adapter_llama_server.go:160-164 | the payload of a data line is its text, in any case of the field name and any padding |
| Upstream.NoisePayload | internal/manager/adapter_llama_server.go:163-191 | a line that does not begin with the data field contributes nothing |
| Sessions.FoldIsScript | internal/manager/adapter_llama_server.go:155-206 | on every stream and every writer the adapter loops do what a script of offers does, so they are sessions like any other |
| Sessions.PayloadScriptShape | internal/manager/adapter_llama_subprocess.go:129-154 | that script offers exactly the non-empty tokens before `[DONE]`, ends with an error at the first refusal, and returns the last finish reason on an ordinary end |
| Sessions.TokensArePrefix | internal/manager/inference.go:101-115 | a session that ends without returning at its first refusal puts out a prefix of the token lines of what it offers, and when it returns all of them, put together as content |
| Sessions.UnpromptWitness | internal/manager/inference.go:108-110 | for every other session there is a writer on which it sends what it never promised |
| Sessions.CleanIffPrompt | internal/manager/inference.go:101-146 | the output is a prefix of what the session promises, complete on success and without a closing byte on failure, on every writer and context, if and only if the session is of the first kind |
| Sessions.PiecesOfLines | internal/manager/inference.go:102-114 | whatever a session does, Generate puts out one prefix of a token line for each token it offers, refused ones included |
| Sessions.SmoothRun | internal/manager/inference.go:101-115 | if the writer and the context hold, every session delivers all it offers and ends as it would |
| Inference.Generate | internal/manager/inference.go:115-125 | running any session on the token callback has the effect of its script, of which the rows above say what goes out |
| Inference.PlayScript | internal/manager/adapter_iface.go:12-18 | an arbitrary adapter, whose every move may depend on the callback's verdicts so far |
| Inference.RunStream | internal/manager/inference.go:64-147 | everything after admission: what is written and returned, for every adapter, ending and writer; ReplyTells says what each reply means and Streaming.FinalFields what the closing line holds |
| Inference.ReplyTells | internal/manager/inference.go:64-147 | which reply means that nothing started, that Generate did not return, and that the closing line went out whole |
| Inference.Infer | internal/manager/inference.go:20-147 | on every way out, panic included, the manager is as ensure and admission of the requested model, or of the default if none is requested, left it, with both slots given back; refusals write nothing |
| Inference.BeginThenRelease | internal/manager/queue_admission.go:52-59 | admission followed by release leaves only the move to the back |
| Inference.LlamaIsPrompt | internal/manager/adapter_llama_server.go:170-175 | both llama adapters end with an error at the first refused token, and what they offer is the non-empty tokens before `[DONE]` |
| Inference.StreamIsPrefix | internal/manager/inference.go:126-146 | for every session that ends without returning at its first refusal: the bytes written are a prefix of token lines plus one closing line, a fine reply means exactly that stream, with the concatenated tokens as content unless the session gave its own, and a failed Generate leaves no closing byte |
| Inference.FailureWritesTokensOnly | internal/manager/inference.go:115-125 | for every session whatever: if Generate failed or panicked, what went out is a prefix of a token line for each token offered, and nothing of a closing line |
| Inference.CleanIff | internal/manager/inference.go:101-146 | over all adapters: the stream is clean on every writer and context if and only if, at the first refused token, the session ends without returning normally |
| Inference.CarelessSessionGarbles | internal/manager/inference.go:108-115 | two concrete sessions on the failing side, one that goes on after a failed write and one that stops without an error: Infer reports success on a garbled stream |
| Readers.KeepContinues | web/src/pages/HaikuPage.tsx:79-85 | the kept lines of two pieces of text are those of the first and those of its tail with the second |
| Readers.InferPageLines | web/src/pages/InferPage.tsx:66-90 | for every chunking, the collected lines are the trimmed non-blank lines of the whole text, the unterminated one included |
| Readers.HaikuRead | web/src/pages/HaikuPage.tsx:72-127 | for every chunking, the same lines as the other page, and the content is a function of the whole text alone |
| Readers.HaikuReadWhole | web/src/pages/HaikuPage.tsx:42-68 | the path without a stream reader collects the same lines |
| Readers.KeepElements | web/src/pages/HaikuPage.tsx:82-85 | what is kept of some lines is exactly their trimmed forms that are not blank |
| Readers.KeepSplit | web/src/pages/InferPage.tsx:78-85 | and in order |
| Readers.NonEmptyElements | internal/httpapi/logging.go:33-35 | what is logged of some lines is exactly those that are not empty |
| Readers.NotDoneOnlyAppends | web/src/pages/HaikuPage.tsx:88-95 | a line without done only ever adds its token to the content |
| Readers.LoggingLineWriter.Write | internal/httpapi/logging.go:25-39 | after any writes, the log is the non-empty complete lines of all input in order and the buffer its newline-free tail |
| Streaming.ReplySplits | internal/manager/inference.go:131-156 | a complete reply cut at newlines is exactly the token lines and the closing line, nothing lost to trimming |
| Streaming.TokensAbsorb | web/src/pages/HaikuPage.tsx:86-91 | the token lines rebuild the concatenation of the tokens |
| Streaming.HaikuReadsContent | web/src/pages/HaikuPage.tsx:76-110 | the haiku page's content of a complete reply is the content of its closing line |
| Streaming.HaikuReadsWhole | web/src/pages/HaikuPage.tsx:43-68 | so is its content without a stream reader |
| Streaming.FinalFields | internal/manager/inference.go:131-137 | the closing line reads as done, with its content, its finish reason and its three usage numbers |
| Streaming.CutReply | web/src/pages/HaikuPage.tsx:86-110 | a reply cut after some token lines shows their concatenation on either path |
| Streaming.UnterminatedReply | web/src/pages/HaikuPage.tsx:101-110 | a reply lacking only its last newline shows the content of its closing line on either path |
| Streaming.UnterminatedToken | web/src/pages/HaikuPage.tsx:101-127 | of a reply cut inside a token's newline the two paths show the same if and only if that token is empty, or is all there is and not blank |
| Streaming.OtherTexts | web/src/pages/HaikuPage.tsx:111-127 | one object with content or completion alone shows that text, with a stream reader only if it is not blank |
| Streaming.EndToEnd | internal/manager/inference.go:101-146 | for every adapter, if nothing fails and the session returns, every chunking lets the pages recover exactly the tokens offered and a closing line with the session's finish reason and usage, and both paths of the haiku page show the session's content or else the concatenation |
| Streaming.LlamaEndToEnd | internal/manager/adapter_llama_server.go:155-206 | for the llama adapters, every upstream body of events that ends with a literal `data: [DONE]` line or cleanly reaches the pages as its non-empty deltas, the haiku page shows their concatenation, and the closing line has the last finish reason given |

## Left out

Contracts that say less than the code or the design could be held to:

- Managing.Manager.BeginGeneration: nobody else moves while it waits, so a full queue or a running generation always
  ends in a timeout; waiting that succeeds is in `Interleaving`, whose runs `Slots` is about.
- Managing.Manager.Unload: of the requests on the instance at most the running one leaves while the loop polls; any
  number of them, in any order, is what `Drain` is about.
- Inference.Infer: the manager is otherwise quiet during the call; a nil writer or context and negative `MaxTokens` are
  not part of this model, and the reply tells apart only where an inference stopped, not which error value it returned.
- Accounting.CounterExactIff: needs fixed sizes; `Accounting.Conservation` does not.
- Inference.CleanIff: a session ends after finitely many offers and uses the writer only through its callback.
- Termination.EndlessMeansPolling: nothing is assumed about scheduling, so a call that is never scheduled may stay
  unfinished in an infinite behaviour.

Of the manager:

- The subprocess adapter's processes: spawning, readiness polling, signals, ports. A failed spawn is a
  cancelled warmup with an error text. Eviction under that adapter drops the lock between choosing a victim
  and deleting it (`internal/manager/instance_evict.go` lines 32-40); the interleaved model has the other branch.
- Real time. The clock is a counter that advances at each stamp; timeouts, deadlines and cancellations may come
  at any step where the code looks for them. In the one-operation-at-a-time model the parameters `rounds`,
  `polls` and `finish` say when a deadline passes and when the running request leaves.
- The order in which waiters on a channel are woken.
- The read lock around Unload's two length reads is not modelled as excluding writers, and Infer's ensure and
  admission are separate calls in `Interleaving`. Both only add behaviours, so what holds of every run holds.
- The file-size estimate is a parameter of at least 1 in `Interleaving` and any size in `Lru`.
- Event publishing, logging, ports and process ids on instances, and LRU metadata on disk.

Of the stream:

- Bytes: strings are sequences of Unicode scalar values, so UTF-8, replacement of invalid bytes and a chunk that
  cuts a character are not part of this model. Half a surrogate pair in an escape is refused by the JSON reader.
- JSON beyond what the lines use: numbers are naturals, and white space between tokens is not read. Both pages are
  proved for every parser that agrees with this one on what it reads.
- How an upstream payload decodes is a parameter: a list of choices, a content field, both or neither.
- The escapes `\b` and `\f` and the escaping of `<`, `>`, `&`, U+2028 and U+2029 are those of Go's encoder since
  version 1.22.
- Session close errors and the flusher.
- HaikuPage's abort timer, and rendering.
- HTTP transport, status mapping, configuration loading, metrics registration, and the test tooling.
