# Verified models of tako's verification, orchestration and redaction cores

Dafny models of four cores of tako, each proved against what it promises. Run
`dafny verify dfyconfig.toml` to check all of them.

- **Transparency log, certificate chain, freshness anchor.** The Rekor inclusion proof walk
  against the recursive Merkle tree of RFC 6962, over an arbitrary hash function: a wrongly
  accepted proof is turned into an explicit collision. The chain walk as an exact
  characterisation by certification paths. The lock-free anchor as a linearizable object, the
  two state stores (with the IEEE rounding the Redis script performs), and runs of replicas.
- **Conductor fan-out under a budget.** Tasks, semaphore, bounded channel and check-then-record
  accounting as a state machine; a tight overspend bound, for one Conductor run and for several
  at once, message order, progress and completion over every interleaving; the recv loop is
  proved to be the machine's consumer.
- **AB-MCTS.** The arena updated in place against the history of the search; posterior
  conservation; the buffered and the streamed search against one recursive account.
- **Agent loops and redaction.** Tool-call reassembly, the single agent's two loops and the
  self-caller's two loops with their refinements; the Luhn check and its error detection; PII
  span resolution and rewriting.

| files | what they hold |
|---|---|
| `MerkleTree`, `InclusionWalk`, `RekorInclusion` | RFC 6962, the bit walk, the verifier |
| `CertChain`, `Keyless` | the chain walk; one `verify_bundle` call |
| `FreshnessAnchor`, `AnchorStore`, `ReplicaRuns`, `FileRuns` | threads, stores, replicas |
| `Budget`, `Fanout*`, `ConductorStream` | accounting, the fan-out machine, its consumer; `FanoutCauses`: why workers end as they do |
| `AbMctsTree`, `AbMcts`, `AbMctsSearch`, `AbMctsRuns`, `AbMctsStream` | the search |
| `ToolCalls`, `SingleAgent*`, `SelfCaller*` | the agent loops |
| `Luhn`, `Pii`, `PiiApply` | redaction |

Hashes, signatures, decoders, providers, routers, tools, policies, verifiers, guards, regular
expressions and random samples are function parameters, so every theorem holds for all of them;
f32 and f64 are reals (except in the Redis script, where the rounding is the point). Automatic
induction is off in every lemma: each induction is written out.

The functions that model the code are also what the loops are proved to compute. What they mean is
said apart from them, on inputs and oracle answers alone: `Established`, `IsPath`,
`Reads`, `HasCause`, `ReturnsTheBest`, the traces of the agent loops, `IsLuhnNumber`.

A claimed index and size *reach* a leaf of a list when the left and right turns that lead to that
index in a tree of that size, taken in the list's own tree, end at that leaf; they may also end
too early or too late and reach none (`MerkleTree.Reached`).

Where code and documentation differ, the models follow the code:

- `sigstore.rs:279-281` says the checkpoint's tree size must match the inclusion proof's; the
  code compares only the root hashes (`sigstore.rs:1137`), so an entry can be accepted under an
  index that is not its own (`Keyless.TwoSizesCanMisplaceAnEntry`), exactly when
  `Keyless.LoggedAtItsIndexExactlyWhenReached` says.
- `StateStore::save` is documented as non-decreasing across replicas. The file store overwrites:
  two replicas, or one replica with two `persist` calls in flight, can lower the file
  (`FileRuns.TwoReplicasCanLowerTheFile`, `FileRuns.OverlappingPersistsCanLowerTheFile`), exactly
  when `FileRuns.SaveLowersExactlyWhenOvertaken` says. The Redis script can lower the key from
  2^53 on (`AnchorStore.RedisCanLowerTheKey`), exactly as `RedisKeepsRoundedMaximum` states.
- `RuleBasedGuard` is documented in characters; the code counts UTF-8 bytes, and so does the
  model. `SelfCallerGuard` says on which texts that matters.
- The two self-caller loops and the single agent end in fallbacks that are dead code; the
  self-caller's retries are bounded by the loop's offset, not by the depth in the metadata.
- The single agent asks its policy before tools only, not before chats, and looks for Deny and
  RequireApproval alone: under the redacting decisions and ForceModel the tool runs unchanged.

## Model

| member | source | states |
|---|---|---|
| RekorInclusion.VerifyRekorInclusion | crates/tako-governance/src/sigstore.rs:1414-1507 | The verifier, statement by statement, returns the verdict that RFC 6962 defines by its own recursion (`Verdict` never mentions the bit walk); what it accepts has matching indices in range, a body, siblings of 32 bytes and a root that decode, and as many siblings as the audit path; what it rejects, it rejects for the first of these that fails. |
| RekorInclusion.RejectionIsExplained | crates/tako-governance/src/sigstore.rs:1414-1507 | Every error, in terms of indices, decoders and lengths alone: index mismatch, range, body, the first sibling that is not hex or not 32 bytes, too long, too short, root, and a root mismatch only when all of these pass. |
| RekorInclusion.AcceptedExactlyTheReachedEntry | crates/tako-governance/src/sigstore.rs:1414-1507 | For every hash function and every decodable proof against the root of a list of any size: the entry that the claimed index and size reach in that list is accepted with its audit path, and anything else that is accepted yields two explicit distinct strings with the same hash. |
| RekorInclusion.AcceptedExactlyTheAuditPath | crates/tako-governance/src/sigstore.rs:1414-1507 | With the list's own size that entry is the one at the claimed index: acceptance is exactly the genuine entry with its genuine audit path, up to an explicit collision. |
| RekorInclusion.AcceptedAtItsIndexExactlyWhenReached | crates/tako-governance/src/sigstore.rs:1414-1507 | The exact condition on index, claimed size and list size: over distinct entries the accepted body is the one at the claimed index if and only if the claim reaches that index, up to a collision; equal sizes always do. |
| RekorInclusion.AcceptedAtAnotherIndex | crates/tako-governance/src/sigstore.rs:1414-1507 | Where the claim reaches another position, the entry there is accepted under the claimed index. |
| RekorInclusion.LengthVerdicts | crates/tako-governance/src/sigstore.rs:1459-1497 | "Too long" and "too short" depend on lengths alone: for each index and size exactly one path length passes, the audit path length, at most 64. |
| RekorInclusion.SkipRightEdge | crates/tako-governance/src/sigstore.rs:1475-1481 | The inner shift loop terminates, keeps fnode <= sn and stops at an odd fnode; its `fnode != 0` guard never decides. |
| RekorInclusion.WalkProof | crates/tako-governance/src/sigstore.rs:1459-1497 | The two-counter loop computes the recursive top-down fold of the sibling list, including which length error it ends in. |
| InclusionWalk.WalkIsFold | crates/tako-governance/src/sigstore.rs:1459-1497 | The bottom-up fnode/sn walk equals the recursion that splits at the largest power of two below n, for every hash, index, size and path. |
| MerkleTree.FoldComplete | crates/tako-governance/src/sigstore.rs:1414-1507 | The entry a claim reaches folds with its audit path to the tree hash, whatever the claimed and actual sizes (sections 2.1 and 2.1.1 of RFC 6962). |
| MerkleTree.TreeIsRfc6962 | crates/tako-governance/src/sigstore.rs:1414-1507 | Tree hash and audit path satisfy the equations of sections 2.1 and 2.1.1 of RFC 6962: a zero byte before a leaf, a one byte before two subtrees, split at the largest power of two below the size. |
| MerkleTree.ReachedAtItsSize | crates/tako-governance/src/sigstore.rs:1414-1507 | A claim of the list's own size reaches the claimed index. |
| MerkleTree.FoldSound | crates/tako-governance/src/sigstore.rs:1414-1507 | A body and path that fold to the tree hash of a list of any size are those of the entry the claim reaches, or `Divergence` computes a collision. |
| MerkleTree.FoldShape | crates/tako-governance/src/sigstore.rs:1459-1497 | Whether a path is too long, too short or gives a digest is decided by comparing its length with the audit path length. |
| CertChain.VerifyChain | crates/tako-governance/src/sigstore.rs:897-984 | The loop with its issuer, depth and path-length bookkeeping accepts a self-issued leaf if and only if it is in date, encodes to the same DER as a root and signs itself as a CA, any other leaf if and only if it has a first-match path of at most 16 issuers whose last one encodes to the same DER as a root. |
| CertChain.FindIssuerFinds | crates/tako-governance/src/sigstore.rs:934-952 | The issuer search returns the first certificate with the wanted subject in bundle, intermediates, roots order, and nothing exactly when there is none. |
| CertChain.CheckHop | crates/tako-governance/src/sigstore.rs:954-978 | A hop passes exactly when the signature verifies, the issuer is a CA, it has no unknown critical extension and its path-length budget covers the intermediates below it. |
| CertChain.WalkFindsPath | crates/tako-governance/src/sigstore.rs:897-984 | Acceptance implies a pinned self-signed leaf in date, or a leaf that is not self-issued and a path of at most 16 issuers to a pinned root, every certificate in date, every hop holding, issuer i allowed at least i - 1 intermediates. |
| CertChain.PathIsFound | crates/tako-governance/src/sigstore.rs:897-984 | Conversely, given such a path that follows the first match by subject, the leaf is accepted if and only if it is not self-issued or is itself a pinned self-signed root in date. |
| CertChain.AcceptsExactlyFirstMatchPaths | crates/tako-governance/src/sigstore.rs:897-984 | The same of the recursive walk; a path is said in terms of subjects, dates, signatures, basic constraints, extension identifiers and DER, without the functions of the walk. |
| CertChain.RefusalIsExplained | crates/tako-governance/src/sigstore.rs:897-984 | Every refusal comes with the issuers walked through, each the first of its name, in date, holding its hop and no root, and with the fault met at their end that fits the error; TooManyHops exactly after 16 of them. |
| CertChain.NamesakeOfARootIsRefused | crates/tako-governance/src/sigstore.rs:1062-1067 | A chain to a self-issued certificate with a root's name but another DER is refused, as not pinned if nothing else is wrong. |
| CertChain.DistinctSubjectsMissNoPath | crates/tako-governance/src/sigstore.rs:897-984 | When pool subjects are distinct, a leaf that is not self-issued is accepted if and only if any certification path exists; a self-issued one only as a pinned self-signed root. |
| CertChain.FirstMatchCanHideARoot | crates/tako-governance/src/sigstore.rs:897-984 | A concrete pool in which an expired namesake in the bundle hides a pinned root, so distinctness is needed. |
| FreshnessAnchor.StepKeeps | crates/tako-governance/src/sigstore.rs:649-667 | Every step of every thread (load, successful or failing exchange, rejection, seed) keeps the history a legal sequential run ending at the anchor, and every call in its place in it. |
| FreshnessAnchor.EveryRunLinearizes | crates/tako-governance/src/sigstore.rs:649-667 | In every run, for any number of threads and spurious failures, the operations in the order of their linearization points replay the sequential anchor; an accepted call is placed at its exchange. |
| FreshnessAnchor.EveryStretchBetweenSeeds | crates/tako-governance/src/sigstore.rs:649-667 | On every seed-free stretch of every run, from the start, after a seed or between two: the anchor after it is the maximum of the anchor before it and the sizes accepted in it, accepted sizes never fall, and a rejected size was below an anchor actually observed. |
| FreshnessAnchor.OnlyALoweringSeedForgets | crates/tako-governance/src/sigstore.rs:526-530 | A seed is a plain store: what was accepted is forgotten exactly when the seed lowers the anchor. |
| FreshnessAnchor.RealTimeOrder | crates/tako-governance/src/sigstore.rs:649-667 | A call that had decided before another was invoked precedes it in the linearization. |
| FreshnessAnchor.CallAloneDecides | crates/tako-governance/src/sigstore.rs:649-667 | From any state a new call left alone decides in two steps: accepted, with the anchor at its size, exactly when its size is at least the anchor; else rejected, with the anchor as it was. |
| FreshnessAnchor.OpenCallDecides | crates/tako-governance/src/sigstore.rs:649-667 | Wherever an open call stands and whatever happened to the anchor since, left alone it ends within two steps, as its sizes say. |
| Keyless.KeylessVerifier.VerifyBundle | crates/tako-governance/src/sigstore.rs:555-675 | Result and new anchor of one call are `Outcome`: every check in source order, then the advance loop, then the catalogue; accepted exactly when all of them hold (`Established`). |
| Keyless.AcceptedExactlyWhenEstablished | crates/tako-governance/src/sigstore.rs:555-675 | Acceptance, without the functions that check: the identity passed; under a trust root the chain text parses and the leaf is a pinned self-signed root or has a first-match path over the bundle's own certificates and the pinned ones; under a log key the entry is signed, its proof has an Ok verdict, its checkpoint is signed, has the proof's root and is not below the anchor; the catalogue parses. The anchor becomes the checkpoint's size exactly when all but the catalogue hold. |
| Keyless.RefusalIsExplained | crates/tako-governance/src/sigstore.rs:555-675 | A refused call ends in the error of the first of these checks that fails, in this order; a chain error with its trail and fault. |
| Keyless.KeylessVerifier.AdvanceAnchor | crates/tako-governance/src/sigstore.rs:649-667 | The compare-exchange loop, after any number of spurious failures, rejects below the anchor and otherwise leaves the size. |
| Keyless.MalformedCatalogueMovesTheAnchor | crates/tako-governance/src/sigstore.rs:555-675 | For every hash: a call that fails only because its catalogue does not parse has moved the anchor to 3, and a bundle with a checkpoint of size 2, accepted before that call, is a rollback after it. |
| Keyless.AcceptedBundleIsLogged | crates/tako-governance/src/sigstore.rs:555-675 | An accepted bundle that carries an inclusion proof, with a pinned log key, holds the entry its index and size reach in any list with the proof's root, with its audit path, or a collision. |
| Keyless.LoggedAtItsIndexExactlyWhenReached | crates/tako-governance/src/sigstore.rs:1120-1150 | Against the list the log signed, of the checkpoint's size: the accepted body is the entry at the claimed index if and only if the claim reaches that index there, up to a collision; equal sizes are enough. |
| Keyless.TwoSizesCanMisplaceAnEntry | crates/tako-governance/src/sigstore.rs:1120-1150 | For every hash, an accepted bundle whose checkpoint has size 3 and whose proof claims size 2 presents the third entry under index 1. |
| AnchorStore.Store.Save | crates/tako-governance/src/sigstore_state_redis.rs:47-60 | Redis sets the key when the new double is at least the old one; the file is replaced whatever it held. |
| AnchorStore.ToDoubleMonotone | crates/tako-governance/src/sigstore_state_redis.rs:47-60 | Rounding to an IEEE double keeps order and is exact up to 2^53. |
| AnchorStore.ToDoubleIsNearest | crates/tako-governance/src/sigstore_state_redis.rs:47-60 | The rounding is that of IEEE 754 for every size: the least power-of-two spacing that keeps the value within 2^53 spacings, and the nearest multiple of it, ties to even. |
| AnchorStore.RedisKeepsRoundedMaximum | crates/tako-governance/src/sigstore_state_redis.rs:47-60 | The rounded key is the maximum of the rounded values; the key falls if and only if a smaller value rounds to the same double, which needs 2^53 or more. |
| AnchorStore.RedisCanLowerTheKey | crates/tako-governance/src/sigstore_state_redis.rs:47-60 | 2^53 replaces 2^53 + 1. |
| ReplicaRuns.EveryRedisRun | crates/tako-governance/src/sigstore_state.rs:109-120 | Invariant of all runs of replicas that boot, verify, persist in two steps, and crash, over Redis. |
| ReplicaRuns.NoReplicaRollsBack | crates/tako-governance/src/sigstore_state.rs:109-120 | A replica never accepts a checkpoint below a value persisted before it booted: exactly up to 2^53, in rounded values for all u64. |
| ReplicaRuns.KeyIsMaximumOfSaves | crates/tako-governance/src/sigstore_state_redis.rs:129-150 | While saves stay within 2^53 the key is their maximum. |
| ReplicaRuns.PersistStores | crates/tako-governance/src/sigstore_state.rs:109-120 | From any state a `persist` call can run, and then stores what it reads, unless the Redis key holds a larger double. |
| ReplicaRuns.RestartReadsTheStore | crates/tako-governance/src/sigstore_state.rs:109-120 | From any state a replica can crash and boot again, with the stored value as its anchor. |
| FileRuns.SaveLowersExactlyWhenOvertaken | crates/tako-governance/src/sigstore_state.rs:208-258 | In every run over a file, with any number of replicas and any number of `persist` calls in flight in each: call p of replica r lowers the file if and only if the last save in the log is of a larger value than p read and is another replica's made after r booted, or anyone's made after p's read. |
| FileRuns.LoneReplicaLowersExactlyByOverlap | crates/tako-governance/src/sigstore_state.rs:208-258 | A single replica, restarted any number of times, lowers the file exactly by a save that read a smaller value before the last save was made. |
| FileRuns.LoneReplicaNeverLowersTheFile | crates/tako-governance/src/sigstore_state.rs:208-258 | So a single replica whose `persist` calls do not overlap never lowers it. |
| FileRuns.OverlappingPersistsCanLowerTheFile | crates/tako-governance/src/sigstore_state.rs:208-258 | A run of one replica, never restarted, with two `persist` calls in flight: the file goes from 9 to 5. |
| FileRuns.TwoReplicasCanLowerTheFile | crates/tako-governance/src/sigstore_state.rs:208-258 | A run of two replicas, one `persist` call each, that lowers the file: the store is not monotone, whatever the trait asks. |
| BudgetEnforcement.BudgetTracker.PreCheckRequest | crates/tako-runtime/src/budget.rs:99-141 | Ok if and only if the request is within every cap that applies to the tenant's current spend; otherwise the error names the first cap exceeded, in the order request dollars, request tokens, daily, tenant; no usage changes. |
| BudgetEnforcement.PreCheck | crates/tako-runtime/src/budget.rs:99-141 | The same verdict as a function of the usage read. |
| BudgetEnforcement.InMemoryBudgetBackend.Record | crates/tako-runtime/src/budget.rs:68-79 | Adds to one tenant, tokens saturating in u64, and touches no other tenant. |
| FanoutBudget.PermitsInEveryRun | crates/tako-orchestrator/src/conductor.rs:738-787 | Permits out plus permits free equal max_fanout in every state of every run. |
| FanoutBudget.OverspendBound | crates/tako-orchestrator/src/conductor.rs:923-990 | Over every interleaving of a fan-out that alone spends the tenant's budget, from a spend of at least `start`: recorded spend plus the estimates of workers between check and record stays within max_usd_per_day + (max_fanout - 1) * the largest estimate that can pass, which is the smaller of max_usd_per_request (if set) and max_usd_per_day - start; with one permit, within the cap itself. |
| FanoutTightness.BoundIsReached | crates/tako-orchestrator/src/conductor.rs:923-990 | For every max_fanout, daily cap, start within it and request cap or none, there is a run from at least that start that spends exactly that bound. |
| FanoutTightness.CapIsKeptExactly | crates/tako-orchestrator/src/conductor.rs:923-990 | For all of these, the daily cap itself is kept in every run if and only if max_fanout is 1, nothing is left of the day at the start, or requests may cost nothing. |
| FanoutBudget.WholeRunBound | crates/tako-orchestrator/src/conductor.rs:263-404 | Coordinator turns and fan-outs in any number and order, in one Conductor run that has the tenant to itself, keep the spend within max_usd_per_day + (max_fanout - 1) * max_usd_per_request. |
| FanoutSharing.SharedBound | crates/tako-orchestrator/src/conductor.rs:263-404 | Any number of Conductor runs of one tenant at once, interleaved step by step, each with its own semaphore and in whatever turn: the shared spend stays within max_usd_per_day + (the sum of their permits - 1) * the largest estimate that can pass. |
| FanoutSharingTightness.SharedBoundIsReached | crates/tako-orchestrator/src/conductor.rs:263-404 | For any number of runs of one permit each there is an interleaving that spends exactly that bound, so max_fanout 1 does not keep the cap for a tenant with two runs. |
| FanoutProtocol.EveryRunOrdered | crates/tako-orchestrator/src/conductor.rs:847-1020 | In every run the channel never exceeds 64, and what was consumed or waits of a branch is its deltas so far, then at most one Done. |
| FanoutProtocol.EveryBranchReads | crates/tako-orchestrator/src/conductor.rs:923-990 | In every state of every run, of every branch: delta j carries the text of the delta before it followed by the j-th non-empty chunk; a Done comes last; and a Done with a text comes only from a registered worker that finished normally, after all its chunks, with the text of the last delta, or with the answer's text if it does not stream. |
| FanoutCauses.EveryOutcomeHasItsCause | crates/tako-orchestrator/src/conductor.rs:847-1020 | In every run a worker that calls, or has a text, held its permit at a spend its estimate fitted; and one that failed is unknown, held its permit at a spend its estimate did not fit, broke off its call, or finished abnormally after a check that held. |
| FanoutCauses.SpendIsAccounted | crates/tako-orchestrator/src/conductor.rs:923-990 | In every run the spend has grown by at least the estimates of the workers that ended with a text, and by at most these and those of workers that finished abnormally; not at all without a budget. |
| FanoutCauses.SpendIsExact | crates/tako-orchestrator/src/conductor.rs:923-990 | When no worker can finish abnormally, the spend is exactly that of the recorded calls. |
| FanoutProtocol.EveryRunFiled | crates/tako-orchestrator/src/conductor.rs:565-596 | A slot is filled exactly when its branch's only Done was consumed, with that outcome; the counter counts filled slots. |
| FanoutProtocol.CompleteWhenAllDone | crates/tako-orchestrator/src/conductor.rs:565-596 | When the consumer stops, the channel is empty, every branch delivered its deltas and its Done, and the results stand in dispatch order. |
| FanoutProgress.PostsBelow64 | crates/tako-orchestrator/src/conductor.rs:847-1020 | A worker can post its next text or its Done exactly while fewer than 64 events wait. |
| FanoutProgress.NeverStuck | crates/tako-orchestrator/src/conductor.rs:847-1020 | No reachable state before the last Done is stuck, even if no call ever times out. |
| FanoutProgress.RunsAreFinite | crates/tako-orchestrator/src/conductor.rs:847-1020 | Every run ends within a stated number of steps. |
| FanoutProgress.RunsEndComplete | crates/tako-orchestrator/src/conductor.rs:538-615 | A run can be extended exactly until the consumer has all results; where it cannot, it is complete. |
| ConductorStream.ReceiveAll | crates/tako-orchestrator/src/conductor.rs:565-594 | The recv loop computes slots, counter and partial scores of the events up to the n-th Done. |
| ConductorStream.LoopIsTheConsumer | crates/tako-orchestrator/src/conductor.rs:565-594 | The loop's variables are the state machine's at every point of every run. |
| ConductorStream.ResultsMatchStarts | crates/tako-orchestrator/src/conductor.rs:542-615 | Every completed fan-out, however interleaved: result i is what the Done of branch i carried, last of that branch's events, which read as `EveryBranchReads` says; and result ids equal start ids in order. |
| ConductorStream.ResultEventsAre | crates/tako-orchestrator/src/conductor.rs:599-640 | The tail of a turn, position by position: result i under its id, worker and outcome, directly followed by the score of its text, brought into 0..1, exactly when there is a verifier and a text. |
| ConductorStream.EveryRunScores | crates/tako-orchestrator/src/conductor.rs:565-594 | In every run the partial scores are, in order, those of the consumed deltas that get one, with their step and 1-based branch, brought into 0..1. |
| AbMctsTree.OldNodeGrows | crates/tako-orchestrator/src/ab_mcts.rs:716-735 | One more step changes exactly the ancestors of the new leaf (score and miss) and its parent's child list. |
| AbMcts.DescentShape | crates/tako-orchestrator/src/ab_mcts.rs:653-691 | The descent goes child by child from the root, strictly upwards in the arena, and ends at a node with room for a child. |
| AbMcts.DownwardIsAncestry | crates/tako-orchestrator/src/ab_mcts.rs:653-691 | The path of a descent is exactly the set of ancestors of the node it ends at, so back-propagation reaches the right nodes. |
| AbMcts.DescentFollowsTheSamples | crates/tako-orchestrator/src/ab_mcts.rs:653-691 | At every node of a descent the decision is the one its Beta samples call for: a new branch when there is no child, or room and a new-branch sample above all children's; otherwise the first child with the largest sample; and it draws one sample more than the node has children. |
| AbMctsSearch.Select | crates/tako-orchestrator/src/ab_mcts.rs:653-691 | The selection loop computes the recursive descent, with the samples it draws. |
| AbMctsSearch.Pick | crates/tako-orchestrator/src/ab_mcts.rs:661-686 | A node expands or hands on to the first child with the best sample. |
| AbMctsSearch.Grow | crates/tako-orchestrator/src/ab_mcts.rs:716-735 | Insertion and in-place back-propagation change exactly the path, the parent's children and the new leaf. |
| AbMctsSearch.GrownRepresents | crates/tako-orchestrator/src/ab_mcts.rs:716-735 | After them the arena is again the one its history describes. |
| AbMctsRuns.Iterate | crates/tako-orchestrator/src/ab_mcts.rs:645-737 | One buffered iteration: its step or error, its draws, and the arena invariant (tree, posterior, messages, branching) kept. |
| AbMctsRuns.IterateStreaming | crates/tako-orchestrator/src/ab_mcts.rs:426-606 | One streamed iteration: the same, with its events. |
| AbMctsRuns.Run | crates/tako-orchestrator/src/ab_mcts.rs:272-353 | `run` returns what the recursive account of the search says, and if it succeeds the text, message and steps of the first of the best-scored leaves with the saturated token totals (`ReturnsTheBest`); in the arena it built, alpha = 1 + the scores of the subtree and alpha + beta = 2 + its size at every node, the tree is the one of the history, and branching stays within bounds. |
| AbMctsRuns.StreamIterations | crates/tako-orchestrator/src/ab_mcts.rs:387-629 | The streamed loop builds the same arena, with the same conservation, and emits the events of the same search. |
| AbMctsRuns.Stream | crates/tako-orchestrator/src/ab_mcts.rs:387-629 | `stream` emits the events of the same search and, if it succeeds, last one Final with the first of the best-scored leaves. |
| AbMctsRuns.ResultReturnsTheBest | crates/tako-orchestrator/src/ab_mcts.rs:317-352 | A search that succeeds returns the first leaf attaining the maximum score; one that fails has the error of its failing iteration, or ran none at all. |
| AbMctsRuns.SearchShape | crates/tako-orchestrator/src/ab_mcts.rs:310-337 | Every iteration, with the samples drawn before and after it: no earlier score reached min_confidence, the descent led to its parent by its samples, the rollout continued the parent's messages, the score is the verifier's brought into 0..1. A search ends at a score that reaches min_confidence, at the iteration limit, or at the iteration that fails, with the rollout's or the verifier's error; branching stays within bounds. |
| AbMctsRuns.UsageSaturatesOnce | crates/tako-orchestrator/src/ab_mcts.rs:317-322 | Step-by-step saturating totals are the true totals saturated once. |
| AbMctsStream.SearchEvents | crates/tako-orchestrator/src/ab_mcts.rs:426-606 | Each completed iteration i shows once, event by event: StepStart(i), what the rollout surfaced (its text once, if any, when not streaming), VerifierScore on branch i + 1; no Final among them. |
| AbMctsStream.StreamInOrder | crates/tako-orchestrator/src/ab_mcts.rs:426-606 | The whole stream is the events of iteration 0, then 1, and so on; after them, if the search fails, the StepStart and rollout events of the failing iteration. |
| AbMctsStream.StreamMatchesRun | crates/tako-orchestrator/src/ab_mcts.rs:387-629 | With the same samples, rollouts and scores the stream has exactly one Final, last, equal to `run`'s output, or none when `run` fails; the "no rollout" error needs an iteration limit of 0. |
| ToolCalls.AssembleToolCalls | crates/tako-orchestrator/src/single.rs:658-685 | The keyed accumulation and ordered drain compute the entries of each index's own deltas, by index. |
| ToolCalls.AssembledByIndex | crates/tako-orchestrator/src/single.rs:658-685 | The calls come in the order of their indices; each has the last id and name its index gives and the value of its joined fragments, the empty object if there are none or they do not parse; an index that never gives an id or never a name makes none. |
| ToolCalls.InterleavingIsIrrelevant | crates/tako-orchestrator/src/single.rs:658-685 | The result depends only on the per-index subsequences. |
| ToolCalls.ReassemblyRoundTrip | crates/tako-orchestrator/src/single.rs:658-685 | Calls with distinct indices, cut into pieces (empty-object arguments possibly into none) and interleaved in any way that keeps each index's order, come back sorted by index. |
| SingleAgent.PickProvider | crates/tako-orchestrator/src/single.rs:176-201 | The primary without a router or candidates; otherwise the first provider of the pool with the id the router names, an error exactly when there is none or the router fails. |
| SingleAgent.Named | crates/tako-orchestrator/src/single.rs:193-200 | The first provider of the pool with the routed id, an error exactly when there is none. |
| SingleAgentLoops.Run | crates/tako-orchestrator/src/single.rs:228-373 | `run` computes the buffered account of the agent loop. |
| SingleAgentLoops.Stream | crates/tako-orchestrator/src/single.rs:376-652 | `stream` computes the streamed account and its events. |
| SingleAgentLoops.ReadChunks | crates/tako-orchestrator/src/single.rs:446-490 | Reading chunks up to the first error gives the gathered text, calls by index, finish and usage. |
| SingleAgentLoops.AnswerCallsStreaming | crates/tako-orchestrator/src/single.rs:566-633 | The streamed tool loop makes the same decisions and invocations as the buffered one, with an event before and after each. |
| SingleAgentRuns.EveryRun | crates/tako-orchestrator/src/single.rs:246-370 | In both modes: every tool-call message is answered by one user message with the same ids in order; with a policy, a tool runs exactly after a decision on its call other than Deny and RequireApproval, at once, and those two end the run; at most max_steps replies; the empty fallback message is never used when max_steps >= 1. |
| SingleAgentTrace.EveryRunHasATrace | crates/tako-orchestrator/src/single.rs:228-652 | Every run in either mode, told on what the environment answers alone: each turn's provider is the one chosen, its pre-check, reply and record succeeded, every tool call was let through, invoked in order and answered with its value or its error marked as one, and the conversation grew by reply and answers; the run ends with a reply without calls, at the step limit with the last reply, or with the error of the choice, check, reply, record, policy or refusal that stopped it; usage is the saturated total; and the stream shows each step in full. |
| SingleAgentRuns.ToolsRunWithoutAllow | crates/tako-orchestrator/src/single.rs:313-332 | A policy that answers ForceModel: the tool is invoked, in both modes, so Allow is not needed. |
| SingleAgentRuns.CarriedReplyIsGathered | crates/tako-orchestrator/src/single.rs:446-500 | Chunks that carry a reply are gathered back into it. |
| SingleAgentRuns.StreamRefinesRun | crates/tako-orchestrator/src/single.rs:376-652 | With a provider that streams what it would have answered, the streamed run is the buffered run: messages, tool invocations and results, usage, outcome. |
| SingleAgentRuns.ToolsAreShown | crates/tako-orchestrator/src/single.rs:585-633 | For any provider, the stream shows exactly the tools invoked, in order, and no early Final. |
| SingleAgentRuns.StreamMatchesRun | crates/tako-orchestrator/src/single.rs:376-652 | Then the stream shows the tools `run` invokes and ends with one Final equal to `run`'s output, or none if it fails. |
| SelfCaller.Run | crates/tako-orchestrator/src/self_caller.rs:143-192 | The retry loop computes the recursive account and returns inside the loop: the code after it is dead. |
| SelfCaller.Stream | crates/tako-orchestrator/src/self_caller.rs:224-338 | The streamed loop computes its own account, with events; the code after the loop is dead. |
| SelfCaller.ReadInner | crates/tako-orchestrator/src/self_caller.rs:258-288 | Reading an inner stream up to an early stop, an error or its end. |
| SelfCallerRuns.EveryRun | crates/tako-orchestrator/src/self_caller.rs:155-188 | In both modes, whatever depth the caller came in with: at most max_depth + 1 inner calls, at saturating depths, each retry's input extended by exactly the rejected answer and the revision prompt, the last call deciding; the guard may answer differently at every call. |
| SelfCallerTrace.EveryRunHasATrace | crates/tako-orchestrator/src/self_caller.rs:143-338 | Every run in either mode, told on what inner orchestrator and guard answer alone: each rejected output is below the threshold with a retry left and is appended, with the revision prompt, to the input of the next call; an inner stream is read to the first error, failing or satisfied guard, or its end; the last turn decides; and the stream shows what is passed on, the confidence and the Final. |
| SelfCallerRuns.OneFinalAtTheEnd | crates/tako-orchestrator/src/self_caller.rs:241-334 | One Final, last, for a successful stream; none otherwise; inner Finals are withheld. |
| SelfCallerRuns.EnoughIsLeast | crates/tako-orchestrator/src/self_caller.rs:385-399 | The cut is at the shortest prefix of whole deltas that is long enough. |
| SelfCallerRuns.TurnsAgree | crates/tako-orchestrator/src/self_caller.rs:241-334 | One inner call ends the same way in both loops: it is retried in both or in neither, and the streamed end is cut short exactly where the guard is satisfied first. |
| SelfCallerRuns.ScanCuts | crates/tako-orchestrator/src/self_caller.rs:258-288 | Where and whether a length-only guard stops an inner stream. |
| SelfCallerRuns.StreamAgreesWithRun | crates/tako-orchestrator/src/self_caller.rs:241-334 | With a length-only guard and an inner orchestrator whose deltas concatenate to its answer (or break off with its error), run and stream make the same inner calls, and the stream answers what the run answers or, where the cut comes first, the shortest long-enough delta-boundary prefix. |
| SelfCallerRuns.AFailedRunCanStream | crates/tako-orchestrator/src/self_caller.rs:241-334 | An inner orchestrator that streams a text and then breaks off, for every text and length: the run fails, and the stream succeeds if and only if the text is long enough. |
| SelfCallerRuns.RuleBasedIsLengthOnly | crates/tako-orchestrator/src/self_caller.rs:369-399 | The rule-based guard without a pattern is such a guard. |
| SelfCallerGuard.ReadingsDifferExactly | crates/tako-orchestrator/src/self_caller.rs:345-399 | Counting bytes, as the code does, and counting characters, as documented, disagree exactly on a text of fewer than min_chars characters and at least min_chars bytes that matches the pattern, if any; the code then accepts it. |
| SelfCallerGuard.ReadingsAgreeExactlyUpToOne | crates/tako-orchestrator/src/self_caller.rs:345-399 | Without a pattern the two readings agree on all UTF-8 texts if and only if min_chars is at most 1; beyond that min_chars - 1 two-byte letters tell them apart. |
| Luhn.LuhnCheck | crates/tako-governance/src/pii.rs:109-126 | The loop from the right computes the weighted sum of the digits, separators ignored, and the length test 13 to 19. |
| Luhn.AcceptsLuhnNumbers | crates/tako-governance/src/pii.rs:109-126 | Accepted exactly: 13 to 19 decimal digits whose textbook sum, from the left, with the decimal digits of the doubles added up, is divisible by ten. |
| Luhn.SingleErrorCaught | crates/tako-governance/src/pii.rs:109-126 | Replacing one digit of an accepted text leaves it accepted if and only if the digit is the same. |
| Luhn.SwapCaught | crates/tako-governance/src/pii.rs:109-126 | Swapping two neighbouring digits, whatever separators stand between them, leaves it accepted if and only if they are equal or are 0 and 9. |
| Pii.Detect | crates/tako-governance/src/pii.rs:137-164 | Collecting, sorting and the cursor loop compute the resolved hits. |
| Pii.SortSorts | crates/tako-governance/src/pii.rs:153-154 | The sort by (start, longest first) is sorted, a permutation and stable. |
| Pii.DetectionResolves | crates/tako-governance/src/pii.rs:137-164 | For any spans the matchers return: hits are disjoint and in order; each was found, is a Luhn number if found as a card number, and is the first found of its span; and every such candidate left out starts inside a kept hit that starts no later and is no shorter from the same start. |
| PiiApply.Apply | crates/tako-governance/src/pii.rs:167-193 | The output is the text with every detected hit replaced from the right: by as many stars, by the digest of its own text, or by the tag of its kind, each tag spelled out. |
| PiiApply.OutsideIsKept | crates/tako-governance/src/pii.rs:167-193 | Putting the hits' own text back through the same copying gives the input: only the hits change. |
| PiiApply.MaskStarsTheHits | crates/tako-governance/src/pii.rs:177-178 | Masking keeps the length and every character outside hits, and stars exactly those inside. |

## Left out

- Cryptography, DER, PEM, base64, hex, protobuf, JSON and regular expressions: parameters. The leaf certificate's identity checks (EKU, SAN, OIDC issuer, validity, signature over the manifest) are one outcome in `Keyless.Bundle`.
- The clock: fixed within one call.
- Memory ordering weaker than sequential consistency: the anchor is one atomic location, on which acquire/release exchanges are totally ordered.
- Re-seeding a verifier that is already shared, and calls of `save(n)` with a value of the caller's own, are not steps of `ReplicaRuns`: replicas seed a fresh verifier, which `seed` takes by value, and save through `persist`.
- The file store's path handling, version field, temporary file and permissions; Redis connections and failures of a store.
- The texts of worker, chain and bundle errors: an error is its kind.
- `Store.Save` returns nothing: the script's reply string is not modelled.
- Budget backends other than the in-memory one, which never fails; the daily reset; token caps inside the fan-out machine (a worker's usage check there is about money).
- The fan-out machine's verifier errors and task panics; the coordinator's prompt, plan parsing, `fail_fast` folding and result rendering; `short`, which slices at a byte index.
- Total order of `yield`s relative to the provider's own progress: events are sequences.
- The AB-MCTS rollout's inner tool loop, its provider choice and the sampling from Beta distributions: one rollout is one oracle answer, the same for both searches. Selection, insertion and back-propagation, which the source writes twice with the same statements, are modelled once and called by both searches; the loops around them are modelled separately.
- The 2^32 truncations of child counts and branch numbers, which the u32 iteration limit keeps out of reach.
- The budget estimate of a streamed request (its `stream` flag differs): one oracle answers for both modes of the single agent.
- Tool schemas, hashes and model names handed to the policy: the policy oracle sees step, messages and call.
- `LlmJudgeGuard`: covered by the theorems about arbitrary guards, which may answer differently at every call; its prompt and parsing are not modelled.
- Byte offsets of PII spans: spans index characters, which is where the matchers cut.
- The SHA-256 replacement's hex digits: a function parameter.
- Trinity, retry, fallback, limiter, breaker, policy parsing, SSE mapping, the evaluation harness, OIDC, Vault, mTLS watchers and the Python bindings.
