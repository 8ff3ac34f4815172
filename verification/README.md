# Paperless IQ backend: verified model

A Dafny model of the stateful core of the Paperless IQ backend, with proofs of
what that core promises. One module per component:

| module | component |
|---|---|
| `Clusters` | duplicate clustering by union-find with path halving |
| `ScanActions`, `TagScan`, `SingleValuedScan` | the grooming classifiers and repeated scan-and-apply rounds |
| `CappedEnqueue` | from scan candidates to queue suggestions: cap, group, re-validate, fold |
| `DismissalMemory` | what a scan remembers of rejected suggestions |
| `ApprovalQueue`, `ApprovalRuns`, `ApprovalService` | the approval queue and its audit trail, over runs and interleavings |
| `OllamaQueue` | priority queue, background gate, embedding circuit breaker |
| `RateLimiter`, `LoginLimiter` | the token bucket and the login window |
| `Chunking`, `EmbedMany`, `SearchResults`, `IndexAccounting`, `Migration` | the vector-store layer |
| `Collections` | options, sequence identities, stable sorting, counting |

Code that changes state step by step is modelled by classes and loops, each
proved against a specification; laws over several calls or over whole runs are
lemmas about those specifications. Calls to Paperless, to the LLM providers and
to the vector databases appear as arbitrary inputs (an answer, or a failure);
clocks are arguments; scores are arbitrary reals.

## Findings

Where the code does less than its comments, documentation or tests say, the
model follows the code, a lemma gives the failing case, and a theorem over all
inputs or all runs says exactly when, or how far, the promise holds.

- Hysteresis. `docs/Grooming.md:78` says separated thresholds prevent a document
  from flip-flopping. With absolute rules this is true (`TagScan.NoFlipFlop`,
  `TagScan.ConvergesInTwo`). With cohort percentiles some document that one scan
  adds is removed by another, exactly unless no document is strong or the
  percentile rule is off (`TagScan.CanFlipFlopIff`): the weakest of ten or more
  documents always has percentile 0. Ten documents, nine of them strong, lose and
  regain one in turn (`TagScan.NineStrongFlipFlop`, in general
  `TagScan.CohortCycle`). Some assignment is at rest exactly when fewer than ten
  documents are strong or the rule is off (`TagScan.CanRestIff`).
- Settled values. With absolute rules a document's value changes at most once
  (`SingleValuedScan.ValueChangesAtMostOnce`). With percentiles a value just added
  can be replaced (`SingleValuedScan.AddThenReplace`), but a value that is set
  still changes at most once, and so any value at most twice
  (`SingleValuedScan.SetValueChangesAtMostOnce`,
  `SingleValuedScan.ValueChangesAtMostTwice`).
- Background gate. `asyncio.wait_for` may time out although a request has just
  been put. Over every run the gate is right at every moment exactly when no idle
  timeout finds an analysis queued (`OllamaQueue.GateIsRightIff`); a run that
  ends with the gate open while an analysis runs is
  `OllamaQueue.LateTimeoutOpensGate`.
- Audit trail. An approval waits for Paperless between loading and committing.
  If its suggestion is settled meanwhile, both verdicts are logged. Over every
  interleaving the log is right exactly when every decision is written while its
  suggestion is pending (`ApprovalRuns.LogIsRightIff`,
  `ApprovalRuns.LateApprovalIsLoggedTwice`). Re-analysis has the longest such
  window: `backend/main.py:1873-1897` loads the row before the model call, and the
  session keeps that copy (`expire_on_commit=False`,
  `backend/database.py:32-36`), so its rejection is a decision loaded early and
  written late, the `LoadRejection` and `Write` events of the model.
- Empty queue. One page of 10 000 suggestions is rejected; the queue is empty
  afterwards exactly when no more were pending (`ApprovalRuns.EmptyQueueIff`); of
  10 001 one stays (`ApprovalRuns.OneTooManyStays`).
- Index accounting. Deletes that fail are swallowed; a stale chunk can then make
  a document count as fully indexed (`IndexAccounting.StaleChunkCountsAsIndexed`).
  After any run the count is right about a document exactly when its last version
  is stored in full and alone, or its stored chunks are fewer than every total
  they state (`IndexAccounting.CountIsRightIff`).
- Migration. A load that raises after storing some points leaves the destination
  populated, and a second attempt is then refused and reported as a success. It
  migrates everything exactly when the first stored nothing
  (`Migration.RetryAfterRaisedLoad`). Both stores load in one bulk call
  (`backend/vector_store.py:780-795`, `backend/vector_store.py:1364-1401`), so this
  needs an error that arrives once the server has accepted points.
- Sentence chunks. A packed chunk may be longer than `chunk_size`: 15 characters
  for a size of 10 (`Chunking.OversizedChunk`). No list of sentences is packed
  into an oversized chunk exactly when the overlap is at most 1
  (`Chunking.StaysWithinIff`); for every larger overlap the bound
  `chunk_size + overlap` is attained (`Chunking.BoundIsAttained`).
- Single-valued adds. Several adds for one empty field all pass re-validation,
  and the weakest one decides (`CappedEnqueue.WeakestWriteWins`,
  `CappedEnqueue.TwoAddsForOneField`).
- Login limit. Nineteen attempts, not ten, can be allowed within five minutes,
  and never more (`LoginLimiter.SlidingBound`, `LoginLimiter.NineteenIsReached`).
- Rate limit of zero. Every check would divide by the zero refill rate, and
  exactly then (`RateLimiter.ZeroLimitNeverAnswers`). Zero is an input of the class
  only: the program builds the limiter with its defaults
  (`backend/main.py:1194`) and never calls `update_config`.
- Embedding. A provider that answers a batch of two or more with too many vectors
  writes into the next batch, and the result then depends on timing
  (`EmbedMany.SpillDependsOnOrder`). The order of completion is irrelevant exactly
  when some reply runs past the end of the list, which always raises IndexError,
  or the replies agree wherever two of them write (`EmbedMany.OrderIrrelevantIff`).

## Model

| member | source | states |
|---|---|---|
| Clusters.TransitiveClusters | backend/grooming.py:135-160 | the clusters are exactly the classes of ids connected by chains of pairs: they partition the mentioned ids, each is ascending, and they come in order of their smallest id |
| Clusters.Forest.Find | backend/grooming.py:139-146 | path halving returns the root, terminates, and changes no root |
| Clusters.Forest.Union | backend/grooming.py:148-149 | exactly the two classes are merged |
| Clusters.GroupByRoot | backend/grooming.py:154-160 | every id lands in the group of its root, groups are ascending and opened in order of their smallest id |
| Clusters.HalvingKeepsSound | backend/grooming.py:143-146 | redirecting an id to its grandparent keeps all roots and moves strictly up a rank |
| Clusters.LinkKeepsSound | backend/grooming.py:148-149 | linking one root to another keeps the forest acyclic, with a bounded rank |
| Clusters.UnionKeepsClasses | backend/grooming.py:151-152 | after each pair, equal roots still mean connected by the pairs seen so far |
| Clusters.ClusteringIsUnique | backend/grooming.py:154-160 | any two pair lists with the same connections give the same list of clusters |
| Clusters.DismissedPairMayStillShare | backend/grooming.py:664-681 | two ids whose own pair is missing can still share a cluster |
| ScanActions.FindMismatch | backend/grooming.py:216-229 | the reason and score of a mismatch, in the order of the if/elif chain |
| ScanActions.BothLoops | backend/grooming.py:202-234 | the two loops together yield one action per document that warrants one, non-holders first, holders ascending |
| TagScan.ClassifyTag | backend/grooming.py:182-234 | an add is recorded exactly for strong non-holders, a remove exactly for mismatching holders, and nothing else; each shows its score and how far that is beyond the threshold; applying the actions to the holders gives the next assignment that the round laws are about |
| TagScan.AppliedMembers | backend/grooming.py:204-234 | applying a list of adds and removes leaves exactly the added documents and the holders not removed |
| TagScan.ComputeCohortPercentiles | backend/grooming.py:165-179 | nothing below ten members, otherwise each member's rank in stable score order scaled to 0..100 |
| TagScan.WeakestHasPercentileZero | backend/grooming.py:176-179 | every cohort of ten or more has a member with the lowest score and percentile 0 |
| TagScan.NoFlipFlop | backend/grooming.py:199-220 | with add above remove threshold, no document that one scan adds is removed by any other scan, whatever the assignments in between |
| TagScan.OneRoundSuffices | backend/grooming.py:213-224 | after one scan-and-apply round nothing is left to do, exactly unless shrinking the assignment turned an absence into evidence |
| TagScan.ConvergesInTwo | backend/grooming.py:204-234 | from any assignment, two rounds reach a state the scan is silent on, and all later rounds keep it |
| TagScan.OneRoundIsNotEnough | backend/grooming.py:215-224 | a concrete assignment for which one round does unmask an absence |
| TagScan.QuietUnderCohorts | backend/grooming.py:225-227 | with percentiles the scan is silent exactly when the absolute rules are and the cohort is below ten or the percentile rule is off |
| TagScan.CanFlipFlopIff | backend/grooming.py:204-227 | with percentiles, and add above remove threshold: some document that a scan adds is removed by another scan over some assignment and its cohort, exactly when some document is strong and the percentile rule is on |
| TagScan.CohortCycle | backend/grooming.py:225-227 | ten documents that the absolute rules leave alone, all the strong ones among them and the bottom one strong: under percentiles exactly it is removed, without them exactly it is added again |
| TagScan.CohortRuleFlipFlops | backend/grooming.py:225-227 | the special case of ten strong documents, for any cohort scores: one of them always goes and comes back |
| TagScan.NineStrongFlipFlop | backend/grooming.py:225-227 | under the default settings, nine strong documents and a tenth weak one: the assignment of ten runs through the cycle although the nine alone are at rest |
| TagScan.CanRestIff | backend/grooming.py:204-227 | with percentiles there is an assignment on which the scan is silent exactly when fewer than ten documents are strong or the percentile rule is off |
| SingleValuedScan.Incumbents | backend/grooming.py:1032-1043 | the incumbent of a document is the entity holding it, else -1 when a chunk payload names one |
| SingleValuedScan.CompetitorBest | backend/grooming.py:1062-1069 | per document, the first entity attaining the best score among all others |
| SingleValuedScan.ClassifySingleValued | backend/grooming.py:237-313 | an add is recorded exactly for strong documents that nobody holds, a replace for mismatching holders whose best competitor clears the add threshold and beats them, a review for the other mismatching holders, and nothing else; distances and replacements as the source computes them |
| SingleValuedScan.ScanField | backend/grooming.py:1045-1099 | over all entities of a type, the candidates are exactly what each one's classification yields against the shared incumbents and competitors |
| SingleValuedScan.OneDecisionPerDocument | backend/grooming.py:264-313 | a replace or review is the only candidate of its document in a scan, so never beside an add |
| SingleValuedScan.ReplacementIsBest | backend/grooming.py:289-303 | a replacement has the maximum score among the other entities, clears the add threshold and beats the incumbent |
| SingleValuedScan.ValueChangesAtMostOnce | backend/grooming.py:264-313 | over any number of rounds with fixed scores and any subset approved, absolute rules only, a document's value changes at most once |
| SingleValuedScan.RoundImproves | backend/grooming.py:294-303 | with percentiles too, a round never removes a value and changes it only to one that scores strictly higher |
| SingleValuedScan.SetValueChangesAtMostOnce | backend/grooming.py:264-313 | with percentiles too, whatever the thresholds and whichever subsets are approved: a value that a document has changes at most once over any number of rounds |
| SingleValuedScan.ValueChangesAtMostTwice | backend/grooming.py:264-313 | with percentiles too, after two changes a document's value stays as it is |
| SingleValuedScan.AddThenReplace | backend/grooming.py:264-313 | two rounds under the default settings in which a document's value is added and then replaced |
| SingleValuedScan.ValueNeverReturns | backend/grooming.py:264-313 | with percentiles too, a value that a document has left never comes back |
| CappedEnqueue.SelectDocs | backend/grooming.py:1194-1203 | at most the cap is selected, documents are left out only when it is reached, every selected document's best distance is at least that of every later selected and of every capped one |
| CappedEnqueue.GroupByDoc | backend/grooming.py:1204-1208 | every candidate of a selected document rides along, in order, and no other |
| CappedEnqueue.CappedCountIsRight | backend/grooming.py:1204-1206 | selected plus capped documents are the distinct documents |
| CappedEnqueue.FoldCandidates | backend/grooming.py:1220-1283 | the loop over one document's candidates computes the fold that the laws below are about |
| CappedEnqueue.EnqueueCandidates | backend/grooming.py:1178-1316 | over the candidates as given: the selection is capped and ranked; the queue has one suggestion, in order of selection, per selected document that was fetched and to which a candidate still applies; recorded are exactly the candidates that apply, strongest first; the tags follow from them step by step; a field is suggested as the weakest candidate to write it says, an add its name and a replace its replacement, and otherwise keeps the name of its current value; each summary counter grows by the number of recorded actions of its kind |
| CappedEnqueue.QueueIsRight | backend/grooming.py:1208-1316 | the same guarantees of the queue, proved from the fold |
| CappedEnqueue.FoldKeepsSomeIff | backend/grooming.py:1236-1283 | a document keeps an action exactly when some candidate applies to it as it is now |
| CappedEnqueue.SelectionIgnoresOrder | backend/grooming.py:1194-1203 | a selection over the sorted candidates is one over the candidates as given |
| CappedEnqueue.RecordedActionsExplainTags | backend/grooming.py:1236-1247 | replaying the recorded actions on the base tags gives the suggested tags, each add appending a missing tag and each remove taking the first occurrence of a present one |
| CappedEnqueue.NetTagEffect | backend/grooming.py:1236-1247 | suggested tags are duplicate-free and hold exactly the added tags and the base tags not removed |
| CappedEnqueue.RecordedActionsAreCurrent | backend/grooming.py:1248-1270 | a recorded single-valued action is about the value the document has now |
| CappedEnqueue.RecordedIffValid | backend/grooming.py:1236-1270 | a candidate on a field, or the only one for its tag, is recorded exactly when it applied to the document as fetched |
| CappedEnqueue.WeakestWriteWins | backend/grooming.py:1247-1265 | of several adds for an empty field, or several replaces of its value, the one with the smallest distance decides the suggested value |
| CappedEnqueue.NoWriteKeepsField | backend/grooming.py:1247-1265 | without an add for an empty field or a named replace of its value, a field keeps the name it had |
| CappedEnqueue.TwoAddsForOneField | backend/grooming.py:1247-1265 | of two correspondents proposed for one document without any, the one nearer its threshold is suggested and both are recorded |
| CappedEnqueue.ReplaceIsSuggested | backend/grooming.py:1252-1265 | a replace of Bank by Insurer suggests Insurer |
| CappedEnqueue.CountsAreRight | backend/grooming.py:1309-1312 | each counter of the summary grows by the number of places in the queue that record an action of its kind |
| DismissalMemory.LoadDismissedKeys | backend/grooming.py:841-867 | the keys are exactly those of unexpired, non-dedup dismissals of the scanned types |
| DismissalMemory.FilterCandidates | backend/grooming.py:1091-1099 | kept are exactly the candidates neither dismissed nor about a pending document, in order; kept and skipped add up |
| DismissalMemory.DismissedIffRemembered | backend/grooming.py:869-881 | a candidate is dropped exactly when a dismissal in force asks the same question, replace and review being one question |
| DismissalMemory.ReplaceAndReviewBlockEachOther | backend/grooming.py:869-881 | a rejected replace blocks the review of its incumbent and a rejected review the replace, and neither blocks anything else |
| DismissalMemory.MemoryIsExact | backend/approval_queue.py:418-459 | over every run of requests, a question is remembered exactly when some recorded rejection answered it within the period that counts |
| DismissalMemory.ScanDropsIff | backend/grooming.py:841-881 | after any run of requests: with an expiry of some days a scan drops exactly what a recorded rejection answered within so many days, without one what any ever answered |
| DismissalMemory.RejectedIsNotAskedAgain | backend/approval_queue.py:418-459 | after a recorded rejection no later scan proposes the same entity, document and question while the rejection is in force |
| ApprovalQueue.ReplayChanges | backend/approval_queue.py:296-314 | the field_change rows of one approval lead from the original to the edited fields |
| ApprovalQueue.RewindChanges | backend/approval_queue.py:296-314 | undoing them leads from the edited back to the original fields |
| ApprovalQueue.EditsDecide | backend/approval_queue.py:266-314 | for every field, after an approval: the stored value is that of the last edit naming the field, else the one before; a change is logged exactly when the two differ and shows both |
| ApprovalQueue.ApprovalDecides | backend/approval_queue.py:280-379 | an approval that succeeds approves its suggestion, logs content exactly when it was asked to write it back, rejects the pending ones of the document exactly when asked to supersede, and changes no other |
| ApprovalQueue.OutcomeIsExplained | backend/approval_queue.py:316-375 | content is logged exactly when it was written back, old and new text cut to 500 characters, and a superseded sibling's event names the approval |
| ApprovalQueue.CompletionVerdicts | backend/approval_queue.py:294-375 | an approval logs one approved event for itself, one rejected event per superseded sibling, and no other event |
| ApprovalQueue.EnqueueKeepsGood | backend/approval_queue.py:196-226 | enqueueing, also of a known id, keeps the audit invariant |
| ApprovalQueue.RejectKeepsGood | backend/approval_queue.py:385-439 | rejecting keeps the audit invariant |
| ApprovalQueue.CompletionKeepsGood | backend/approval_queue.py:294-379 | writing an approval while its suggestion is pending keeps the audit invariant |
| ApprovalQueue.CompletionKeepsOneEventIff | backend/approval_queue.py:258-379 | writing an approval keeps one event per settled suggestion exactly when its suggestion is still pending |
| ApprovalQueue.RejectionKeepsOneEventIff | backend/approval_queue.py:406-439 | the same for a rejection |
| ApprovalQueue.SupersedeSettlesDocument | backend/approval_queue.py:346-375 | a superseding approval rejects exactly the pending suggestions of its document, any other approval none; every other row and table stays as it is |
| ApprovalRuns.ServeKeeps | backend/approval_queue.py:196-499 | every request keeps the audit invariant and leaves settled suggestions untouched |
| ApprovalRuns.EveryRunIsGood | backend/approval_queue.py:196-499 | over every run of enqueue, approve, reject, bulk, empty and re-analyse: one matching event per settled suggestion, none per pending one; replaying the logged changes on the enqueued fields gives the stored ones, undoing them leads back |
| ApprovalRuns.VerdictsAreFinal | backend/approval_queue.py:258-264 | a suggestion settled after some requests is the same after any further ones |
| ApprovalRuns.BulkApproveSettles | backend/approval_queue.py:465-487 | a bulk approval approves its suggestions as they are, in order, up to the first that is unknown, settled, repeated or refused, logs one event each, and touches no other suggestion, not even of the same document |
| ApprovalRuns.BulkRejectSettles | backend/approval_queue.py:489-499 | a bulk rejection rejects what is pending among its suggestions up to the first that is unknown or approved, and touches no other |
| ApprovalRuns.EmptyQueueIff | backend/main.py:1766-1784 | emptying writes no dismissal and leaves nothing pending exactly when at most one page was pending |
| ApprovalRuns.OneTooManyStays | backend/main.py:1766-1784 | of 10 001 pending suggestions the first 10 000 listed are rejected and the last stays pending |
| ApprovalRuns.TimelyRunsAreGood | backend/approval_queue.py:258-379 | under every interleaving of loads and writes, the invariant holds as long as decisions find their suggestion pending |
| ApprovalRuns.WriteKeepsOneEventIff | backend/approval_queue.py:258-379 | a decision written in a state with the invariant keeps one event per suggestion exactly when it is in time |
| ApprovalRuns.LogIsRightIff | backend/approval_queue.py:258-439 | over every interleaving: the log has one matching event per settled suggestion and none otherwise exactly when every decision was written while its suggestion was pending |
| ApprovalRuns.LateApprovalIsLoggedTwice | backend/approval_queue.py:288-292 | a rejection during the Paperless call ends in an approved suggestion with both verdicts logged |
| ApprovalRuns.ConcurrentEditsMerge | backend/database.py:32-36 | two approvals of one suggestion that edit different fields at the same time are both stored, each session writing only what it changed |
| ApprovalService.Service.Enqueue | backend/approval_queue.py:196-226 | a known id changes and commits nothing, a new one is committed as pending and otherwise as given |
| ApprovalService.Service.Approve | backend/approval_queue.py:232-379 | which error is raised when; errors and refused Paperless writes commit nothing; success commits edits, decision, audit rows and superseded siblings at once, with the guarantees of `EditsDecide` and `ApprovalDecides` |
| ApprovalService.Service.WriteApproval | backend/approval_queue.py:294-379 | the committed state after Paperless has accepted |
| ApprovalService.Service.LogChanges | backend/approval_queue.py:296-314 | one row per editable field whose value differs, in field order |
| ApprovalService.Service.Reject | backend/approval_queue.py:385-439 | no-op on rejected, error on approved or unknown, otherwise rejection, event and dismissals in one commit |
| ApprovalService.Service.RecordDismissals | backend/approval_queue.py:441-459 | one dismissal per evidence action that names an entity |
| ApprovalService.Service.ApproveInBulk | backend/approval_queue.py:465-487 | stops at the first error, what came before stays committed, no sibling is superseded |
| ApprovalService.Service.RejectInBulk | backend/approval_queue.py:489-499 | stops at the first error, what came before stays committed |
| ApprovalService.Service.EmptyTheQueue | backend/main.py:1766-1784 | the first page of pending suggestions is rejected without dismissals, and the count is its length |
| ApprovalService.Service.ReanalyzeOne | backend/main.py:1861-1901 | a failed analysis changes nothing; otherwise a pending suggestion is rejected without being remembered, the new one enqueued unless its id is taken, and no other touched |
| ApprovalService.RefusalIsCleanIff | backend/approval_queue.py:266-292 | a refused approval leaves the session clean exactly when the edits change no editable field |
| ApprovalService.RefusedEditsBreakReplay | backend/approval_queue.py:266-292 | committing what a refused approval left behind breaks the audit invariant exactly when it is not clean |
| OllamaQueue.EveryRequestIsPlaced | backend/ollama_queue.py:76-87 | in every reachable state each request is in one place, queued, active or settled, and the pending labels are the non-empty labels queued |
| OllamaQueue.RequestsAreAsSubmitted | backend/ollama_queue.py:76-87 | every queued or running request has the priority and label it was submitted with |
| OllamaQueue.GateIsRightIff | backend/ollama_queue.py:196-230 | over every run: at every moment an open gate means no analysis queued or running and a closed one means work is, exactly when no idle timeout finds an analysis queued |
| OllamaQueue.StepKeepsGateIff | backend/ollama_queue.py:196-230 | each step keeps the gate right exactly when it is not a timeout that finds an analysis queued |
| OllamaQueue.GateIsClosedIff | backend/ollama_queue.py:76-87 | over every run the gate is closed exactly when an analysis has been submitted since it was last opened, by a call ending with nothing queued or by an idle timeout |
| OllamaQueue.LateTimeoutOpensGate | backend/ollama_queue.py:200-207 | a run that ends with the gate open while an analysis runs |
| OllamaQueue.SettledOnce | backend/ollama_queue.py:216-223 | a settled future keeps its outcome over the rest of any run |
| OllamaQueue.OutcomeIff | backend/ollama_queue.py:214-223 | over every run: a future holds a result exactly when the first event to end its request was its call returning, an exception when it was its call raising, a cancellation when it was its caller giving up, and waits when there was none |
| OllamaQueue.PickIsLeast | backend/ollama_queue.py:199-213 | each pick is an analysis if one is queued, else an embedding if one is, and the oldest of its priority; nothing else starts while an analysis waits |
| OllamaQueue.AnalysisAdvances | backend/ollama_queue.py:22-26 | no step puts a request ahead of a waiting analysis, every pick removes one |
| OllamaQueue.BoundedWaiting | backend/ollama_queue.py:22-26 | an analysis with k requests ahead of it waits for at most k picks, whatever is submitted meanwhile |
| OllamaQueue.OpenAfterThree | backend/ollama_queue.py:118-131 | the circuit is open exactly when the last three reports were failures |
| OllamaQueue.LastErrorIff | backend/ollama_queue.py:118-145 | the error shown is the last non-empty one since the last success or reset |
| OllamaQueue.Queue.DoSubmit | backend/ollama_queue.py:76-87 | the submit step on the object |
| OllamaQueue.Queue.DoPick | backend/ollama_queue.py:210-213 | the pick step on the object |
| OllamaQueue.Queue.DoFinish | backend/ollama_queue.py:214-230 | the finish step on the object: a cancelled future is left alone, the gate opens when nothing is queued |
| OllamaQueue.Queue.DoIdleTimeout | backend/ollama_queue.py:203-207 | the idle timeout on the object |
| OllamaQueue.Queue.RecordEmbedFailure | backend/ollama_queue.py:118-129 | counter, last error and circuit agree with the whole history of reports |
| OllamaQueue.Queue.RecordEmbedSuccess | backend/ollama_queue.py:131-135 | the same after a success |
| OllamaQueue.Queue.ResetEmbedCircuit | backend/ollama_queue.py:137-145 | the same after a forced reset |
| RateLimiter.Limiter.Check | backend/rate_limiter.py:33-68 | decision and new bucket of the client, all other clients' buckets untouched |
| RateLimiter.Limiter.UpdateConfig | backend/rate_limiter.py:70-87 | new limits; a bucket with more tokens than the new maximum is set to it, every other is left alone |
| RateLimiter.TokensInRange | backend/rate_limiter.py:49-60 | after every run of checks the tokens lie between 0 and the maximum |
| RateLimiter.BurstIsExact | backend/rate_limiter.py:39-59 | of the first checks of a new client, all at one moment, exactly as many are allowed as the bucket holds |
| RateLimiter.AllowedPlusLeft | backend/rate_limiter.py:49-60 | requests allowed since a check plus tokens left never exceed a full bucket plus the refill since then |
| RateLimiter.TokensAreConserved | backend/rate_limiter.py:49-60 | while the bucket does not overflow, requests allowed plus tokens left equal the tokens before plus the refill |
| RateLimiter.RefillIsLinear | backend/rate_limiter.py:49-53 | the refill between two moments is the rate times their distance |
| RateLimiter.SlidingBound | backend/rate_limiter.py:33-68 | between any two checks of a client at most the maximum plus the rate times the elapsed time is allowed |
| RateLimiter.ClientsAreIsolated | backend/rate_limiter.py:39-47 | in any run over many clients a client's bucket is the one its own checks alone produce |
| RateLimiter.ShareOfOneClient | backend/rate_limiter.py:33-68 | in a run over many clients, between any request and the last, each client is allowed at most the maximum plus the rate times the elapsed time |
| RateLimiter.DeniedChecksAreFree | backend/rate_limiter.py:49-68 | refills across denied checks add up, denials cost nothing |
| RateLimiter.NextAllowedWhenRefilled | backend/rate_limiter.py:55-68 | after a denial the next check is allowed exactly when the missing part of a token has been refilled |
| RateLimiter.RetryAfterIsTight | backend/rate_limiter.py:61-68 | a check r seconds after a denial that returned r is allowed, one at most r - 1 seconds after it is not |
| RateLimiter.ZeroLimitNeverAnswers | backend/rate_limiter.py:61-66 | a check divides by a zero rate exactly when the limit is zero |
| LoginLimiter.Attempts.Check | backend/auth.py:117-132 | decision and new window of the IP, all other IPs' windows untouched |
| LoginLimiter.WindowInvariant | backend/auth.py:124-131 | at most ten attempts are counted in a window |
| LoginLimiter.TwoWindowsAtMost | backend/auth.py:124-131 | attempts allowed within one window length belong to at most two windows |
| LoginLimiter.SlidingBound | backend/auth.py:117-132 | at most 19 attempts are allowed within any 300 seconds |
| LoginLimiter.TenUnlessReopened | backend/auth.py:120-120 | more than ten within 300 seconds only if a window was opened inside the interval |
| LoginLimiter.RefusedUntilWindowEnds | backend/auth.py:120-130 | a refused client stays refused exactly until its window is 300 seconds old, however often it tries |
| LoginLimiter.RefusalsAreFree | backend/auth.py:127-130 | refused attempts neither count nor prolong the window |
| LoginLimiter.NineteenIsReached | backend/auth.py:117-132 | a run that reaches 19 within one second |
| Chunking.ChunkText | backend/vector_store.py:42-57 | a short text is one chunk, a long one is cut into windows of the chunk size at a fixed step |
| Chunking.CharChunksAreInvertible | backend/vector_store.py:42-57 | the first chunk and the later ones without their overlap concatenate to the text |
| Chunking.CharChunkSizes | backend/vector_store.py:50-57 | chunks are non-empty, within the chunk size, and there is one per started step |
| Chunking.CarryOver | backend/vector_store.py:86-95 | the carry is the longest tail of the closed chunk that fits the overlap |
| Chunking.TailIsLongest | backend/vector_store.py:86-95 | no longer tail fits |
| Chunking.PackOne | backend/vector_store.py:75-98 | what one sentence appends to the output and leaves under construction |
| Chunking.JoinOfSum | backend/vector_store.py:72-101 | joining sentences puts one space between neighbours and keeps their order |
| Chunking.PackSentences | backend/vector_store.py:72-101 | fresh and split sentences are the input in order; each packed chunk opens with the longest fitting tail of the one before and was started only because its first fresh sentence did not fit there |
| Chunking.PackedChunkSize | backend/vector_store.py:85-97 | a packed chunk is at most chunk size plus overlap, and outgrows the chunk size exactly when carry and first fresh sentence do |
| Chunking.SentenceChunkBound | backend/vector_store.py:72-101 | no chunk is longer than chunk size plus overlap |
| Chunking.PackingIsUnique | backend/vector_store.py:72-101 | what `PackSentences` promises determines the chunks of a list of sentences |
| Chunking.BoundIsAttained | backend/vector_store.py:85-97 | for every overlap of two or more some chunk has exactly chunk size plus overlap characters |
| Chunking.OversizedChunk | backend/vector_store.py:85-97 | sentences of 4 and 10 characters give a chunk of 15 for a chunk size of 10 and an overlap of 5 |
| Chunking.StaysWithinIff | backend/vector_store.py:85-97 | no list of non-empty sentences is packed beyond the chunk size exactly when the overlap is at most 1 |
| Chunking.ChunkTextSentences | backend/vector_store.py:60-101 | short texts stay whole, long ones are packed without loss |
| EmbedMany.PlanTasks | backend/vector_store.py:287-290 | the batches tile the index range, all full but the last |
| EmbedMany.EmbedAll | backend/vector_store.py:253-293 | the slots after the tasks finished in a given order, and whether an index past the end raised |
| EmbedMany.FinishTask | backend/vector_store.py:278-285 | a finished batch writes its vectors from its start on, a failed one nothing; it raises exactly when a vector falls past the end |
| EmbedMany.SlotComesFromATask | backend/vector_store.py:284-285 | a slot holds what one of the finished tasks writes there, or nothing if none does |
| EmbedMany.EverySlotIsItsOwnText | backend/vector_store.py:253-293 | with one vector per text, for any batches, failures and completion orders: nothing is raised, a slot is empty exactly when its own task failed, else the embedding of the text at that index |
| EmbedMany.OrderIrrelevantIff | backend/vector_store.py:278-292 | for arbitrary replies, the outcome is the same for all completion orders exactly when some reply runs past the end or all replies agree wherever two write |
| EmbedMany.FittingRepliesAgree | backend/vector_store.py:266-285 | replies no longer than their batches, as with one text per call, never collide |
| EmbedMany.SpillDependsOnOrder | backend/vector_store.py:278-290 | three texts in batches of two, one vector too many: the two completion orders give different results |
| SearchResults.Extract | backend/rerankers.py:326-357 | exactly the items with an index become pairs, in order, scored by the relevance score, else the score, else 0 for Cohere, and by the score, else 0, for TEI |
| SearchResults.Rerank | backend/rerankers.py:270-296 | one score per passage in input order: 0.5 each on failure, else the last mention, kept within 0 and 1, and 0 when not mentioned |
| SearchResults.ScoreForIsGiven | backend/rerankers.py:290-296 | that description determines each score |
| SearchResults.OrderIrrelevantIffConsistent | backend/rerankers.py:290-296 | the order of the pairs does not matter exactly when no two give one passage different clamped scores |
| SearchResults.GroupByDoc | backend/vector_store.py:187-194 | per non-zero document the first candidate with the greatest score, documents in order of first appearance |
| SearchResults.SortIsLexicographic | backend/vector_store.py:197-197 | the stable sort keeps ties in order of first appearance |
| SearchResults.AssembleDocResults | backend/vector_store.py:172-205 | exactly the top_n best eligible documents by rerank scores, by the candidates' own scores without a reranker; best first, ties by first appearance, each with its best passage |
| SearchResults.RankAndAssemble | backend/vector_store.py:509-512 | reranker and assembly together: the answer is the one for the scores that the response, its failure or the missing reranker gives the candidates |
| SearchResults.AnswerIsUnique | backend/vector_store.py:196-205 | that description determines the list of results |
| SearchResults.ResultsIgnoreResponseOrder | backend/rerankers.py:290-296 | through a consistent reranker, shuffling the response changes no search result |
| SearchResults.FallbackPreservesOrder | backend/rerankers.py:281-287 | over candidates in descending score order, the 0.5 given by a failed reranker yields the same documents and passages in the same order as no reranker when the minimum drops none of them, and nothing when the minimum is above 0.5 |
| IndexAccounting.Store.Upsert | backend/vector_store.py:383-423 | chunk by chunk, for both backends and any failures: which chunks are written, which go, which stay as they are, and when it raises |
| IndexAccounting.Store.Delete | backend/vector_store.py:425-448 | all chunks of the document go, or none when the failure is swallowed |
| IndexAccounting.CountChunks | backend/vector_store.py:593-617 | per document the number of rows that name it and the total that the last of them to state one states |
| IndexAccounting.AlreadyIndexed | backend/main.py:416-429 | exactly the documents with as many rows as the last stated total, or with rows but no total |
| IndexAccounting.UpsertReplaces | backend/vector_store.py:997-1050 | an upsert stores exactly the chunks just embedded and touches no other document; when every embedding failed Chroma has lost the old version and Qdrant still has it |
| IndexAccounting.StepKeepsValid | backend/vector_store.py:997-1061 | after upserts with any embedding failures and successful deletes, only chunks of the last written version are stored |
| IndexAccounting.AccountingIsSound | backend/main.py:416-429 | in every state so reached and every listing order, a document counts as indexed exactly when chunks 0 to total - 1 of its last written version are all stored |
| IndexAccounting.CountIsRightIff | backend/main.py:416-429 | after every run of upserts and deletes, however many deletes failed: a document is counted as it should be in every listing order exactly when its last version is stored in full and alone, or its stored chunks are fewer than every total they state |
| IndexAccounting.FailedDeleteIsHarmlessIff | backend/vector_store.py:441-448 | from a state of successful deletes, after one failed delete and an upsert the count is right exactly when all old chunks are overwritten or neither total is reached |
| IndexAccounting.StaleChunkCountsAsIndexed | backend/vector_store.py:441-448 | a run in which a stale chunk counts as current |
| Migration.VectorStore.DumpPoints | backend/vector_store.py:755-778 | every record that has a vector, in listing order and in the common shape: id, vector, document and metadata as each backend keeps them |
| Migration.VectorStore.LoadPoints | backend/vector_store.py:1364-1401 | the store after all points are put, and their number |
| Migration.MigrateEmbeddings | backend/vector_migrate.py:30-52 | the result and the destination afterwards for every call that may raise, reason by reason; a populated destination is never written, and a failure asks for a reindex and changes nothing unless the load itself raises |
| Migration.RetryAfterRaisedLoad | backend/vector_migrate.py:38-49 | after a load into an empty store that raised, a second attempt without trouble migrates the whole dump exactly when the first stored nothing, and otherwise is refused without asking for a reindex and leaves what was stored |
| Migration.DumpAfterLoad | backend/vector_store.py:780-795 | dumping an empty store after a load gives each point as that store gives it back |
| Migration.RoundTripIff | backend/vector_store.py:1323-1401 | a move keeps all points exactly when it is into Chroma or they have ids and none of Qdrant's three keys |
| Migration.ChainPreservesPointsIff | backend/vector_migrate.py:30-52 | along any chain of moves the last dump equals the first exactly under that condition |
| Migration.LoadedTagsMatch | backend/vector_store.py:1380-1391 | every loaded record's tag list is the decoded canonical JSON of its metadata |
| Migration.ExclusionAgrees | backend/vector_store.py:154-160 | excluding a tag hides the same points in either store: those whose canonical JSON decodes to a list with the tag |
| Migration.MigratedIsNative | backend/vector_store.py:1017-1040 | a chunk migrated from Chroma becomes the record Qdrant would have written itself |
| Migration.CountsAgree | backend/vector_store.py:1282-1306 | both stores report for each document the number of points that name it and the total these state, so agree on what is fully indexed |

## Left out

- HTTP calls, retries and JSON text: answers and failures are inputs; JSON encoding and decoding are parameters.
- Embeddings, cosine similarity, difflib name similarity and index ranking: scores are arbitrary reals, and rounding of reported scores is ignored.
- Dedup pair collection (pair search and merge dry run): only the clustering of a given pair list is modelled.
- Incremental scans, stale-entity bookkeeping and scan status: they decide which entities are examined, not what is concluded.
- OllamaQueue: stopping and cancelling the worker, a `max_concurrency` above one (the worker runs requests one at a time anyway), and the admission of a woken `submit_background`, which does not re-check the gate; equal stamps, which would compare futures, are excluded.
- TagScan.ConvergesInTwo: absolute rules only; with percentiles `CanFlipFlopIff` and `CanRestIff` say when a document can flip-flop and when some assignment is at rest.
- SingleValuedScan.ValueChangesAtMostOnce: absolute rules only; with percentiles `SetValueChangesAtMostOnce` and `ValueChangesAtMostTwice` hold instead.
- RateLimiter.SlidingBound: holds under one configuration; `update_config` applies a new rate to time already elapsed.
- Audit rows: document id and title, change source, session id and timestamps; retention cleanup and the tracking resets, which delete rows, are not requests of the model.
- ApprovalRuns.EveryRunIsGood: requests are served one at a time; `TimelyRunsAreGood` and `LogIsRightIff` cover interleaving.
- The Paperless PATCH itself, entity name resolution and creation policies: an approval is accepted or refused as a whole.
- Payload values of another type under Qdrant's `chunk_id` and `passage`, and Chroma's refusal of empty metadata.
- Regex sentence splitting: the packing loop starts from a list of sentences.
- The LLM, cross-encoder and Bedrock rerankers, chunk-level results, memories, prompt building, translation, settings, encryption, PDF rendering and the frontend.
