# DRISHTI evidence review, modelled in Dafny

DRISHTI takes evidence files into quarantine, scans and extracts them in retried, crash-prone stages, proposes which
person records may be the same, lets people decide, and shows the result as a case graph. This project models that logic and
proves what it is for, over every input and every run. `dafny verify dfyconfig.toml` checks all of it.

| file | what it models |
|---|---|
| `Pipeline.dfy`, `PipelineRuns.dfy`, `PipelineTheorems.dfy` | one evidence item: the staged pipeline as a class, all interleavings of API calls and workers at database commits, and what follows for every run |
| `MerkleTree.dfy`, `MerkleLegacy.dfy`, `Integrity.dfy` | the two Merkle constructions over any hash, and the proofs and verifier on bytes |
| `Extraction.dfy`, `Contradictions.dfy` | entities and claims as extraction writes them, and contradiction flags after every upload |
| `Profiles.dfy`, `Matching.dfy`, `Resolution.dfy` | person profiles, the score of a pair, and candidate generation |
| `Review.dfy`, `UnionFind.dfy`, `MergeTheorem.dfy` | the decision log, union-find with path halving, and the theorem from decisions to merged entities |
| `Projection.dfy`, `Bounded.dfy` | the case graph as a quotient of the claims, and the capped breadth-first search |
| `Aggregate.dfy`, `Windows.dfy`, `RuleReports.dfy` | the one-pass group-by and the two sliding-window rules |
| `Neo4jMirror.dfy`, `Paging.dfy` | the shared graph index and the paged listing |
| `Worker.dfy` | the Kafka consumer loop on one partition |
| `NerMatching.dfy`, `NerNesting.dfy`, `Shares.dfy`, `Like.dfy` | greedy span matching and when it is optimal, largest-remainder percentages, LIKE escaping |
| `Common.dfy`, `Sorting.dfy` | shared vocabulary |

Code that updates state in place is a class or a method with loops, proved equal to a specification function or to the property
itself; the lemmas then prove what that function means, and the main operations also state their results column by column,
without the specification's own vocabulary. Ids, keys and labels are numbers, hex digests are the bytes they
denote, and times are seconds. The hash, the string similarity, the time parser and every adapter (scanner, storage, extractor,
broker) are parameters whose answers are arbitrary.

## Results that are not as expected

* **An item can be stuck.** A crash between the storage move and its commit leaves a row that the process route admits and no
  run ever extracts (`CrashStrands`, `StrandedForever`). `OneCallFinishes` gives the exact condition: the item is past
  extraction or its object is at the recorded path.
* **SCAN_FAILED does not always mean a failed SCAN job.** The session writes only changed columns, so a call that loaded
  MALWARE_SCANNING before another call's scan failed reopens the job without touching the status (`SilentOpenHappens`).
  `ComesApart` shows that this is the only way: from agreement, a step breaks it if and only if it is such an opening.
* **The old Merkle tree is not the tree of the list padded with its last leaf.** It fails first at six leaves
  (`SixIsLeast`). The level-by-level root is the perfect tree over another padding (`LegacyIsPerfect`), and the two paddings agree
  exactly when the number of added leaves is one less than a power of two (`LastPaddingExact`, `LastPaddingClosedForm`).
* **The module text of `apps/api/app/services/integrity.py:17-22` calls duplicated leaves RFC 6962 behaviour.** The code, and
  this model, follow sections 2.1 and 2.1.1 of RFC 6962 without duplication; duplication is the older scheme only.
* **The Neo4j transaction alone does not keep cases apart.** MERGE looks a relation up by its ends and claim id, so a written edge
  that shares them with another case's relation would claim it (`OthersKeepRelations`, exact). The service never writes such an
  edge, since a claim id is a primary key with one case (`apps/api/app/models.py:156-157`) and a projection takes the claims of its
  own case: after any sequence of such writes each case shows its own last write (`EachCaseShowsItsLastWrite`).
* **A message can be lost.** An exception that escapes `_process_message` leaves the position behind the batch, and the next
  successful batch commits it (`EscapeLosesMessage`). `SafeIffNothingAbandonedIsPassed` characterises the safe runs.
* **Greedy matching is optimal against all predictions without nesting if and only if no gold span nests another**
  (`GreedyWinsIffNoNesting`), and for all golds without nesting if and only if no prediction nests another
  (`GreedyWinsIffNoNestedPrediction`). Any nesting on one side has an opposite side without nesting on which it loses;
  `NestingCanLose` is a small instance. Pairwise disjoint spans never nest.
* **The score of a pair may depend on its order,** because `difflib`'s ratio does (`OrderCanMatter`). `AssessmentIsFair` says exactly
  when it does not. Candidate generation always takes the smaller id first, so a pair has one score.

## Model

| member | source | states |
|---|---|---|
| `Pipeline.EvidenceStore.constructor` | apps/api/app/routes/evidence_routes.py:77-89 | an accepted upload is committed as QUARANTINED, with its object in quarantine, no job and no claim, which meets the invariant that every call keeps |
| `Pipeline.EvidenceStore.AcquireJob` | apps/api/app/services/pipeline.py:29-56 | a stage is refused as succeeded if and only if its job has succeeded, and as running if and only if its lease of 900 s still runs; otherwise the caller runs it, with one more attempt and a new lease |
| `Pipeline.EvidenceStore.Open` | apps/api/app/services/pipeline.py:60-62 | the commit that opens a stage: job RUNNING and busy status together, or nothing at all; a status equal to the one loaded is not written |
| `Pipeline.EvidenceStore.KeepInQuarantine` | apps/api/app/services/pipeline.py:71-81 | a scan that is not clean fixes status and job and leaves path, claims and objects alone; only INFECTED counts as a successful scan |
| `Pipeline.EvidenceStore.Promote` | apps/api/app/services/pipeline.py:82-95 | a clean scan accepts the item together with its new path, or a failed move makes it a retryable SCAN_FAILED with the path unchanged |
| `Pipeline.EvidenceStore.RunScan` | apps/api/app/services/pipeline.py:59-95 | the whole scan stage, column by column, for every scanner and storage answer: each answer gives its own status, and an unreadable object or a failed move is a failed scan |
| `Pipeline.EvidenceStore.CommitExtraction` | apps/api/app/services/pipeline.py:108-115 | claims, job and status change in one commit |
| `Pipeline.EvidenceStore.FailExtraction` | apps/api/app/services/pipeline.py:116-131 | a failed extraction leaves no claim; a hash mismatch is told apart from other failures |
| `Pipeline.EvidenceStore.RunExtract` | apps/api/app/services/pipeline.py:98-131 | the whole extract stage, column by column: INTEGRITY_MISMATCH if and only if the object is there and its hash differs, no claim unless it succeeds |
| `Pipeline.EvidenceStore.RunResolve` | apps/api/app/services/pipeline.py:134-160 | the whole resolve stage, column by column: HITL if a candidate is undecided, GRAPH_PROJECTED if none is, and back to EXTRACTED with the claims on a failure |
| `Pipeline.EvidenceStore.ProcessEvidence` | apps/api/app/services/pipeline.py:163-192 | which statuses are refused and which enter which stage, and what the stages come to; a call that goes through ends HITL if and only if a candidate is undecided and GRAPH_PROJECTED if and only if none is; for all adapter answers the call keeps what ties status, jobs, path, verdicts and claims together |
| `Pipeline.CallSpelledOut` | apps/api/app/services/pipeline.py:163-192 | the specified call has this outcome from every row, loaded status and adapter answer |
| `Pipeline.CallEnds` | apps/api/app/services/pipeline.py:156-157 | the final status of a call that goes through |
| `Pipeline.EvidenceStore.MarkActive` | apps/api/app/services/pipeline.py:195-199 | HITL, GRAPH_PROJECTED and ACTIVE become HITL while candidates are undecided and ACTIVE otherwise; no other status and no other column changes; the invariant is kept |
| `Pipeline.EvidenceStore.Verify` | apps/api/app/routes/evidence_routes.py:144-159 | a missing or altered object flags the item INTEGRITY_MISMATCH and changes nothing else, and the invariant is kept |
| `Pipeline.EvidenceStore.ReadContent` | apps/api/app/routes/evidence_routes.py:198-244 | bytes are handed out if and only if the object is there, its hash matches, and the status is none of the seven withheld ones or an administrator downloads it; which refusals flag the item; the invariant is kept |
| `Pipeline.CallKeeps` | apps/api/app/services/pipeline.py:163-192 | from rows that meet the invariant a call leads to rows that meet it, through whatever stages, refusals and failures it goes |
| `PipelineRuns.GrantedIsFree` | apps/api/app/services/pipeline.py:36-49 | the job guard never lets a second worker into a stage that a live worker holds |
| `PipelineRuns.OpenKeeps` | apps/api/app/services/pipeline.py:29-62 | opening a stage from a status read at any earlier moment keeps the invariant |
| `PipelineRuns.StepKeeps` | apps/api/app/services/pipeline.py:29-199 | every step between two commits, crash, expiry, object loss, integrity flag or activation keeps the invariant that ties status, jobs, path, verdicts and claims together |
| `PipelineRuns.RunKeeps` | apps/api/app/services/pipeline.py:29-199 | so every state of every run satisfies it |
| `PipelineTheorems.CommitsAreBatches` | apps/api/app/services/pipeline.py:108-114 | a run records one batch for every commit of claims it contains |
| `PipelineTheorems.ExactlyOnce` | apps/api/app/services/pipeline.py:29-131 | in every run claims are committed at most once, exactly when EXTRACT is SUCCEEDED, all from that one commit, only behind a clean scan and a promoted path; an item with an INFECTED verdict is never extracted; no stage has two holders |
| `PipelineTheorems.ClaimsAreFinal` | apps/api/app/services/pipeline.py:36-37 | once extracted, no later step changes the claims or the job |
| `PipelineTheorems.ServedContentIsClean` | apps/api/app/routes/evidence_routes.py:224-244 | in every run, bytes are served only from the accepted area of an item whose last scan was clean, that was never found infected and whose hash matches, except for an administrator's download |
| `PipelineTheorems.NoOtherStatus` | apps/api/app/routes/evidence_routes.py:136-138 | a reachable item is admitted by the process route, finished, infected or flagged; no other status occurs |
| `PipelineTheorems.AdmittedIsUnfinished` | apps/api/app/services/pipeline.py:184-192 | every admitted status leads to a stage whose job has not succeeded |
| `PipelineTheorems.OneCallFinishes` | apps/api/app/services/pipeline.py:163-192 | once leases have expired, one call with adapters that succeed reaches HITL (with undecided candidates) or GRAPH_PROJECTED (with none) if and only if the item is past extraction or its object is at its recorded path |
| `PipelineTheorems.RedeliveryIsHarmless` | apps/api/app/services/pipeline.py:184-192 | a call for an item that is finished or blocked changes nothing |
| `PipelineTheorems.CrashStrands` | apps/api/app/services/pipeline.py:83-94 | a crash between the move and its commit leaves an admitted item without its object |
| `PipelineTheorems.StrandedForever` | apps/api/app/services/pipeline.py:63-94 | no run ever extracts such an item |
| `PipelineTheorems.ScanStatusExact` | apps/api/app/services/pipeline.py:60-80 | a failed-scan status means a FAILED job if and only if the current attempt was not opened without a status write |
| `PipelineTheorems.ComesApart` | apps/api/app/services/pipeline.py:60-80 | in every run, from a state in which a failed-scan status goes with a FAILED job or there is none, a step ends that if and only if the status is a failed scan and the step is an opening by a call that loaded MALWARE_SCANNING |
| `PipelineTheorems.SilentOpenHappens` | apps/api/app/db.py:29 | a run in which the status is SCAN_FAILED while the job is RUNNING, for the session writes changed columns only |
| `PipelineTheorems.CallIsARun` | apps/api/app/services/pipeline.py:163-192 | an uninterrupted call of the program is one of the runs, so all theorems about runs hold of it |
| `MerkleTree.SplitPointUnique` | apps/api/app/services/integrity.py:66-67 | the split point is the power of two k with k < n <= 2k, the only one |
| `MerkleTree.Split` | apps/api/app/services/integrity.py:81-85 | the doubling loop finds the largest power of two below n |
| `MerkleTree.LastStep` | apps/api/app/services/integrity.py:154-155 | a sibling whose position is "left" is hashed in front, any other behind |
| `MerkleTree.PathClimbs` | apps/api/app/services/integrity.py:95-102 | every audit path leads from its leaf to the root, for any hashes |
| `MerkleTree.PathLength` | apps/api/app/services/integrity.py:95-102 | a path is no longer than the depth of any perfect tree with room for the leaves |
| `MerkleTree.Locate` | apps/api/app/services/integrity.py:147-157 | a climb that ends at the root follows the audit path of a leaf of the list, or two inputs with one digest are returned |
| `MerkleTree.Bind` | apps/api/app/services/integrity.py:88-92 | lists of any two lengths with one root are equal, or two inputs with one digest are returned |
| `MerkleLegacy.ComputeLegacyRoot` | apps/api/app/services/integrity.py:105-111 | the level loop computes the root defined by recursion on levels |
| `MerkleLegacy.ComputeLegacyPath` | apps/api/app/services/integrity.py:114-125 | the path loop records one sibling per level of that recursion |
| `MerkleLegacy.LegacyPathClimbs` | apps/api/app/services/integrity.py:114-125 | the path of every leaf leads to the legacy root |
| `MerkleLegacy.LegacyPathLength` | apps/api/app/services/integrity.py:114-125 | its length is exactly the ceiling of log2 of the number of leaves |
| `MerkleLegacy.OddRepeatsLast` | apps/api/app/services/integrity.py:63-65 | an odd list of at least three leaves and the same list with its last leaf repeated have one root |
| `MerkleLegacy.LegacyIsPerfect` | apps/api/app/services/integrity.py:105-111 | the level-by-level root is the top-down root of a perfect tree over the list padded block by block |
| `MerkleLegacy.LastPaddingExact` | apps/api/app/services/integrity.py:108-109 | padding with the last leaf alone gives the same list for all leaves if and only if every level that is still padded is odd |
| `MerkleLegacy.LastPaddingClosedForm` | apps/api/app/services/integrity.py:108-109 | these are exactly the lengths at which the number of leaves added to reach a power of two is itself one less than a power of two |
| `MerkleLegacy.SixIsLeast` | apps/api/app/services/integrity.py:108-109 | six is the least length at which it does not |
| `MerkleLegacy.LegacyIsLastPadded` | apps/api/app/services/integrity.py:105-111 | at such lengths the legacy root is the perfect root of the list padded with its last leaf |
| `MerkleLegacy.LastPaddingFails` | apps/api/app/services/integrity.py:105-111 | whenever the two paddings differ, equal roots would exhibit a collision of the node hash |
| `Integrity.MerkleProof.Verify` | apps/api/app/services/integrity.py:147-157 | the verifier's loop climbs the whole sibling list under the scheme's two hashes; an unknown scheme is rejected |
| `Integrity.MerkleRoot` | apps/api/app/services/integrity.py:128-136 | the empty list, both schemes and the unknown tag |
| `Integrity.SmallRoots` | apps/api/app/services/integrity.py:73-79 | with one or two leaves: a leaf is hashed behind the byte 0, a node behind the byte 1 |
| `Integrity.SmallLegacyRoots` | apps/api/app/services/integrity.py:57-60 | the older scheme leaves a single leaf as it is and hashes a pair behind nothing |
| `Integrity.ProveInclusion` | apps/api/app/services/integrity.py:160-165 | the proof returned is for the leaf asked for, carries the list's root, is accepted, and has at most (legacy: exactly) ceiling of log2 n siblings; errors exactly for a bad index or an unknown scheme |
| `Integrity.EncodeInjective` | apps/api/app/services/integrity.py:73-78 | the domain byte and the digest length make the hashed bytes determine the tree node |
| `Integrity.Trace` | apps/api/app/services/integrity.py:147-157 | from an accepted proof: the index of the leaf whose audit path it is, or two byte strings that collide |
| `Integrity.ProofsExact` | apps/api/app/services/integrity.py:147-157 | the verifier accepts exactly the audit paths of the list's leaves, or a collision has been exhibited |
| `Integrity.Compare` | apps/api/app/services/integrity.py:128-136 | equal roots mean equal lists, the empty list included, or a collision is returned |
| `Extraction.Extractor.FindEntity` | apps/api/app/services/extract_common.py:224-247 | the one row of a kind and canonical key is found or created, and completed at most once per extraction: id, label, sensitivity and each attribute of each case are given |
| `Extraction.NewRowInColumns` | apps/api/app/services/extract_common.py:232-237 | a new row has the drawn id, is sensitive for phones and accounts alone, and has attributes of this case alone |
| `Extraction.KnownInColumns` | apps/api/app/services/extract_common.py:238-245 | in a known row the given attributes of this case replace those of the same name; the others and all other cases stay |
| `Extraction.Extractor.WriteClaim` | apps/api/app/services/extract_common.py:250-271 | every claim gets exactly one provenance row, and each statistic grows by what was written |
| `Extraction.FirstCallDecides` | apps/api/app/services/extract_common.py:224-247 | after any sequence of calls each row is what the first call for its key makes of it; attributes of later calls are dropped |
| `Extraction.OtherCasesKeepAttributes` | apps/api/app/services/extract_common.py:239-245 | an extraction for one case changes no attribute of another case, and no id or label |
| `Extraction.MentionsShareEntity` | apps/api/app/services/extract_common.py:224-232 | with ids that are drawn new, two mentions of an extraction lead to one entity if and only if kind and canonical key agree |
| `Extraction.OneIdEachKept` | apps/api/app/services/extract_common.py:230-236 | no two rows share an id after any sequence of calls |
| `Contradictions.FlagContradictions` | apps/api/app/services/extract_common.py:277-297 | the pass group by group flags exactly the claims that another one opposes, and counts them |
| `Contradictions.FlagsAreExact` | apps/api/app/services/extract_common.py:290-296 | a claim changes only if it is listed, in effect or flagged, unreviewed, and another listed claim gives the same owner, birth date or address of the same entity another value; then it is flagged with exactly those claims |
| `Contradictions.FlagsAreMutual` | apps/api/app/services/extract_common.py:293-296 | two undecided claims that disagree name each other |
| `Contradictions.ReviewedClaimStays` | apps/api/app/services/extract_common.py:280-283 | a claim with a review keeps its state and flags through any sequence of uploads, each followed by the pass, and of decisions on anything else, until its own next review |
| `Contradictions.ClaimStatesFollowReviews` | apps/api/app/services/extract_common.py:280-283 | from an empty case, after any uploads and decisions, a claim whose latest review is APPROVE is ALLOWED, after REVERSE it is CONTRADICTORY if contradictions are recorded and else ALLOWED, and after any other decision it is in the state of that name |
| `Contradictions.SecondRunChangesNothing` | apps/api/app/services/extract_common.py:277-297 | a second run changes no claim |
| `Profiles.BuildProfile` | apps/api/app/services/resolution.py:26-45 | a profile holds exactly what the unrejected claims about the person say, and the label of the record if none gives a name |
| `Profiles.ProfileInColumns` | apps/api/app/services/resolution.py:26-45 | each set of a profile in terms of the columns of the claims |
| `Profiles.OnlyCountingClaimsMatter` | apps/api/app/services/resolution.py:28-42 | rejected claims, claims about others and the order of claims play no part |
| `Matching.NameSimilarity` | apps/api/app/services/resolution.py:59-66 | the greatest similarity over all pairs of names, zero if there is none |
| `Matching.ScorePair` | apps/api/app/services/resolution.py:84-127 | the branches and running score list exactly the signals that the two profiles show, and the confidence is one half plus their weights, kept between 0.02 and 0.98 |
| `Matching.SharedKeys` | apps/api/app/services/resolution.py:48-56 | two profiles share a blocking key if and only if they share a phone, or have names with one last word and one first character |
| `Matching.ListedSignals` | apps/api/app/services/resolution.py:92-125 | when each signal, conflict and missing attribute is listed |
| `Matching.ConfidenceIsWorth` | apps/api/app/services/resolution.py:92-127 | the confidence as the clamped sum over names, phones, accounts, organisations, birth date and address |
| `Matching.AssessmentIsFair` | apps/api/app/services/resolution.py:127 | confidence stays within 0.02 and 0.98; the assessments of a pair in both orders agree if and only if both name similarities lie in the same band: different, similar or exact |
| `Matching.SymmetricRatioIsFair` | apps/api/app/services/resolution.py:59-66 | a string ratio that does not depend on the order of its arguments gives one assessment either way |
| `Matching.OrderCanMatter` | apps/api/app/services/resolution.py:63 | two names with the ratios 0.833 and 0.583 are assessed differently in the two orders |
| `Matching.SharedPhoneAloneIsWeak` | apps/api/app/services/resolution.py:124-127 | with a shared phone as the only positive signal the confidence is at most one half and the caveat is recorded |
| `Resolution.BuildInput` | apps/api/app/services/resolution.py:19-23 | the persons of a case are the person records that some claim mentions, each with the profile the claims give |
| `Resolution.SameInput` | apps/api/app/services/resolution.py:70-72 | what a pass works on is determined by the persons, their labels and the unrejected claims about each |
| `Resolution.GenerateCandidates` | apps/api/app/services/resolution.py:69-141 | from the claims of the case: afterwards every two persons whom unrejected claims link to one phone, or give names with one last word and one first character, have a row, every new row is an undecided one of such a pair, assessed from the claims with the smaller id first, undecided rows of such pairs are assessed anew and all others left alone, and logs and states stay consistent |
| `Resolution.CandidatesFromClaims` | apps/api/app/services/resolution.py:79-86 | the pairs that are proposed, in terms of the claims |
| `Resolution.DecisionsSurvive` | apps/api/app/services/resolution.py:81-83 | a decided candidate comes out of a pass exactly as it went in, and an undecided one keeps its pair and state |
| `Resolution.RepeatIsHarmless` | apps/api/app/services/resolution.py:76-141 | a second pass creates no row and changes none, if the persons, their labels and the unrejected claims about each are the same as at the first |
| `Review.CaseReviews.Last` | apps/api/app/routes/review_routes.py:97 | the latest review of a target, if any |
| `Review.CaseReviews.Decide` | apps/api/app/routes/review_routes.py:88-111 | every answer with its exact condition, and on success the decision as the new state, REVIEW_REQUIRED for REVERSE, and one superseding review |
| `Review.CaseReviews.DecideClaim` | apps/api/app/routes/review_routes.py:153-169 | every answer with its exact condition, and on success ALLOWED for APPROVE, CONTRADICTORY or ALLOWED for REVERSE as contradictions are recorded, the decision itself otherwise, and one superseding review |
| `Review.DecidedKeeps` | apps/api/app/routes/review_routes.py:97-105 | a decision keeps every state the fold of its log and every log one chain |
| `UnionFind.Merger.Find` | apps/api/app/services/graph.py:47-52 | the loop ends at the root of the entry, and path halving moves no entry to another root |
| `UnionFind.Merger.Union` | apps/api/app/services/graph.py:54-57 | one union relabels exactly the class of the second entity |
| `UnionFind.ApprovedMerges` | apps/api/app/services/graph.py:44-58 | union-find with path halving computes the representatives of plain relabelling |
| `UnionFind.FirstEntityWins` | apps/api/app/services/graph.py:54-57 | an approved pair hands the class of its second entity to the representative of its first |
| `UnionFind.QuickFindKeys` | apps/api/app/services/graph.py:58 | the map's domain is exactly the approved endpoints |
| `UnionFind.LinkedToRepresentative` | apps/api/app/services/graph.py:58 | every key is sent into its own component, and representatives to themselves |
| `UnionFind.SameRepresentativeIffLinked` | apps/api/app/services/graph.py:44-58 | two entities share a representative if and only if approved pairs connect them |
| `MergeTheorem.RunKeeps` | apps/api/app/routes/review_routes.py:97-105 | after any sequence of generation and decisions, logs, states and pairs are consistent |
| `MergeTheorem.LogsDecideStates` | apps/api/app/routes/review_routes.py:97-105 | every state is the fold of its log, supersedes links form one chain, and no pair has two rows |
| `MergeTheorem.MergesFollowDecisions` | apps/api/app/services/graph.py:44-58 | after any run, two entities are merged if and only if a chain of candidates whose latest decision is APPROVE connects them |
| `MergeTheorem.GenerationMergesNothing` | apps/api/app/services/resolution.py:3-5 | generation never changes which matches are approved |
| `Projection.Graph.EnsureNode` | apps/api/app/services/graph.py:82-92 | one node per representative, named by its own row or by the first entity to come, with each other label once |
| `Projection.Graph.AdmitOne` | apps/api/app/services/graph.py:95-103 | an attribute, mention or open relationship adds its node and, if contradictory, its flag |
| `Projection.Graph.AdmitEdge` | apps/api/app/services/graph.py:104-117 | an admitted relationship adds its two nodes and one edge between their representatives |
| `Projection.BuildProjection` | apps/api/app/services/graph.py:62-117 | the graph built from approved pairs and claims in terms of the columns of the claims: which claims are its edges and between which representatives, where nodes stand, their labels, the labels merged into them and their contradictions |
| `Projection.EdgesAreClaims` | apps/api/app/services/graph.py:104-117 | the edges are exactly the relationships with a target that are ALLOWED or APPROVE, in view and in time, one edge for each |
| `Projection.DemandedSpelledOut` | apps/api/app/services/graph.py:94-112 | which entities claims call for: the source, and both ends of an edge |
| `Projection.MeansInColumns` | apps/api/app/services/graph.py:82-103 | nodes, labels, merged labels and contradictions in terms of the columns of the claims |
| `Projection.FirstCaller` | apps/api/app/services/graph.py:85-88 | a node without a row of its representative is named by the entity called first |
| `Projection.EdgesHaveNodes` | apps/api/app/services/graph.py:112-113 | every edge runs between nodes of the graph |
| `Projection.MergingKeepsEdges` | apps/api/app/services/graph.py:62-117 | under any two sets of approvals the edges are the same claims: none is added or dropped |
| `Projection.MergingMovesEdges` | apps/api/app/services/graph.py:77-80 | the merged graph's edges are the unmerged graph's, moved to the representatives of their ends |
| `Projection.MergingKeepsFlags` | apps/api/app/services/graph.py:95-100 | a contradiction shows on a merged node if and only if it shows on one of the nodes merged into it |
| `Projection.NodesAreClasses` | apps/api/app/services/graph.py:77-92 | two entities share a node if and only if approvals connect them |
| `Bounded.Explore` | apps/api/app/services/graph.py:178-211 | the kept set never exceeds the clamped limit, every kept node is within the clamped hops through kept nodes, of each node found on fewer hops the most connected neighbours are kept up to the cap unless the limit is met, an untruncated set is the whole ball, and the flag is raised if and only if a supernode is met or the ball exceeds the limit |
| `Bounded.LimitsAreClamped` | apps/api/app/services/graph.py:178-179 | hops and nodes are those asked for, within what the deployment allows and at least 1 and 5 |
| `Bounded.Expand` | apps/api/app/services/graph.py:198-210 | one node: its neighbours are taken by falling degree, as many as the cap lets through, until the limit is met before the next; all are kept, or something was cut off that had to be |
| `Aggregate.AggregateEdges` | apps/api/app/services/graph_analytics.py:54-119 | one line per source, target and type that occurs, each exact for its whole group, with counts that add up to the number of edges; without a reference of the caller's own no age is negative |
| `Aggregate.GroupStands` | apps/api/app/services/graph_analytics.py:69 | a group is, in order, the edges with one source, target and type |
| `Aggregate.TotalsAddUp` | apps/api/app/services/graph_analytics.py:78-81 | weights and missing marks add up over any split of a group, each edge counting once |
| `Aggregate.Stretch` | apps/api/app/services/graph_analytics.py:89-92 | first and last seen are the least and greatest recorded strings of the group |
| `Aggregate.Govern` | apps/api/app/services/graph_analytics.py:96-101 | governance is that of the last edge with the greatest time |
| `Aggregate.MixedField` | apps/api/app/services/graph_analytics.py:106-107 | a collected set has two values if and only if two edges of the group disagree on the field |
| `Aggregate.AgeIsNotNegative` | apps/api/app/services/graph_analytics.py:62-65 | with the default reference no dated edge lies in the future |
| `Windows.BurstIffFullWindow` | apps/api/app/services/graph_analytics.py:283-287 | enough calls lie pairwise within the window if and only if some window that opens at a recorded call is full |
| `Windows.DetectBurst` | apps/api/app/services/graph_analytics.py:281-297 | the report names the earliest full window, all its calls and its last call; no report means no window is full |
| `Windows.FanInIffFullWindow` | apps/api/app/services/graph_analytics.py:301-307 | the same for transfers and distinct sources |
| `Windows.DetectFanIn` | apps/api/app/services/graph_analytics.py:299-320 | the report names the earliest qualifying window, all its sources and its last transfer; no report means none qualifies |
| `RuleReports.RuleCandidates` | apps/api/app/services/graph_analytics.py:257-321 | a pair is reported if and only if its calls contain a burst, an account if and only if its transfers contain a fan-in, each at most once and accurately |
| `RuleReports.CallsStand` | apps/api/app/services/graph_analytics.py:276-277 | the calls of a pair are, in order, the dated CALLED edges from the one to the other |
| `RuleReports.TransfersStand` | apps/api/app/services/graph_analytics.py:278-279 | the transfers to an account are, in order, the dated TRANSFERRED_TO edges into it, with their sources |
| `Neo4jMirror.Mirror.WriteProjection` | apps/api/app/services/neo4j_store.py:88-129 | the four statements of the transaction, in order, leave the specified store |
| `Neo4jMirror.MembersAreNodes` | apps/api/app/services/neo4j_store.py:98-116 | after a write the case's members are exactly the given nodes, and other cases keep theirs |
| `Neo4jMirror.PropertiesFollow` | apps/api/app/services/neo4j_store.py:106-116 | listed nodes get the listed properties, others keep theirs, and no entity is deleted |
| `Neo4jMirror.RelationsAreEdges` | apps/api/app/services/neo4j_store.py:117-129 | after a write the case's relations are exactly the given edges, and another case loses exactly those a written edge coincides with |
| `Neo4jMirror.OthersKeepRelations` | apps/api/app/services/neo4j_store.py:119-122 | other cases keep all relations if and only if no written edge has the ends and claim of one of theirs |
| `Neo4jMirror.EachCaseShowsItsLastWrite` | apps/api/app/services/neo4j_store.py:88-129 | with claims of one case each, after any sequence of writes of any cases the members and relations of each case are exactly those of its own last write |
| `Neo4jMirror.SecondWriteChangesNothing` | apps/api/app/services/neo4j_store.py:80-86 | writing the same projection again leaves the store identical |
| `Paging.Serve` | apps/api/app/services/graph.py:152-192 | one request gives the same page, whose nodes stand from the offset on in the order of the listing, whether the index, or after a failed write or read the in-process graph, answers it |
| `Paging.PageHoldsPlaces` | apps/api/app/services/graph.py:189-191 | a page is full unless the listing ends, and the next offset is the place after it |
| `Paging.ListsEachNodeOnce` | apps/api/app/routes/graph_routes.py:84 | following next_offset from 0 lists every node exactly once, for any page sizes and any mix of sources |
| `Paging.FollowAll` | apps/api/app/routes/graph_routes.py:84 | and comes to an end |
| `Worker.ProcessMessage` | workers/worker.py:51-95 | which outcomes hand a message back, which accept it, and which escape, a failure to close the session included |
| `Worker.Consumer.PollTurn` | workers/worker.py:122-138 | position, committed offset and processed messages after one turn with any results and broker answers, in plain terms |
| `Worker.NextInColumns` | workers/worker.py:124-136 | only a batch that is True throughout is committed, only one whose first other result is False is fetched again, and what comes before that result counts as processed |
| `Worker.Consumer.Play` | workers/worker.py:122-140 | the loop over any turns and restarts is one of the runs, so what holds of runs holds of it |
| `Worker.SafeIffNothingAbandonedIsPassed` | workers/worker.py:122-138 | the committed offset never passes a message that did not return True, if and only if no commit follows an abandoned message before a restart |
| `Worker.RetriesAreSafe` | workers/worker.py:134-136 | if messages are only handed back, none is lost and each comes first in the next batch |
| `Worker.EscapeLosesMessage` | workers/worker.py:137-138 | a run in which an escaping exception loses its message |
| `NerMatching.ScoreExact` | scripts/evaluate_ner.py:55-56 | the exact counts, which add up to gold and predictions |
| `NerMatching.OverlapIsCommonPosition` | scripts/evaluate_ner.py:60 | spans that are not empty overlap if and only if they have a position in common |
| `NerMatching.ScoreOverlap` | scripts/evaluate_ner.py:57-70 | the counts add up, the true positives are reached by a one-to-one matching, are the maximum when no span nests another, and are never fewer than the exact ones for spans that are not empty |
| `NerMatching.GreedyIsBest` | scripts/evaluate_ner.py:59-63 | no matching beats the greedy choice when ends ascend, and none of identical spans does in any case |
| `NerMatching.DisjointSpansDoNotNest` | scripts/evaluate_ner.py:57 | pairwise disjoint spans meet that condition |
| `NerNesting.HitsAreGreedy` | scripts/evaluate_ner.py:59-63 | the greedy choice is a matching in which every served gold has its first overlapping prediction that no earlier gold holds |
| `NerNesting.NestingLoses` | scripts/evaluate_ner.py:59-63 | for every gold set with nesting there are predictions without nesting, none of them empty, on which another matching serves more |
| `NerNesting.GreedyWinsIffNoNesting` | scripts/evaluate_ner.py:57-63 | the greedy choice is a maximum matching against all predictions without nesting if and only if no gold span nests another |
| `NerNesting.NestedPredictionsLose` | scripts/evaluate_ner.py:59-63 | for every set of predictions with nesting there are golds without nesting, none of them empty, on which another matching serves more |
| `NerNesting.GreedyWinsIffNoNestedPrediction` | scripts/evaluate_ner.py:57-63 | the greedy choice is a maximum matching for all golds without nesting if and only if no prediction nests another |
| `NerMatching.NestingCanLose` | scripts/evaluate_ner.py:60 | nested spans on which the greedy choice finds one pair and another matching two |
| `Shares.SegmentedBar` | apps/web/src/components/ui/charts.tsx:52-64 | nothing for a total of zero; otherwise shares that add up to 100, each its quota rounded down or up, whole quotas (zero among them) exact, the points left over given to the largest remainders and among equal ones to the first parts, and no larger count with a smaller share |
| `Shares.LeftoverGoesToLargest` | apps/web/src/components/ui/charts.tsx:61 | a part with a point more has a larger remainder than one without, or the same and an earlier place |
| `Shares.LeftoverFits` | apps/web/src/components/ui/charts.tsx:60-61 | the leftover is below the number of parts and goes to positive remainders, so one pass gives it all out |
| `Like.ReplacesEscapeEach` | apps/api/app/routes/listing.py:17 | the three replacements in a row escape every special character exactly once |
| `Like.EscapedReadsBack` | apps/api/app/routes/listing.py:17 | an escaped text is read back by the LIKE predicate as its own characters |
| `Like.PatternFindsText` | apps/api/app/routes/listing.py:15-18 | the pattern matches a text if and only if the trimmed query occurs in it without regard to case, for all queries and texts |
| `Like.FilterFinds` | apps/api/app/routes/listing.py:21-25 | a row passes the filter if and only if there is no query or one of its columns contains it |
| `Like.StripTrims` | apps/api/app/routes/listing.py:17 | trimming removes white space from both ends and nothing else |
| `Like.SpacesAreTen` | apps/api/app/routes/listing.py:17 | the ten ASCII characters that count as white space |
| `Like.FoldingIgnoresCase` | apps/api/app/routes/listing.py:17 | two texts fold to one if and only if they differ in the case of ASCII letters alone |

## Left out

- Adapters and libraries: ClamAV, object storage, SQLAlchemy beyond its changed-column writes, Kafka beyond position and commit, web3, PDF output, OCR and language models, centrality and communities. Each appears as an arbitrary outcome.
- Routes, authentication, masking, rate limiting, schemas, migrations and the rest of the React client: plumbing with easy properties.
- Extraction from files: a step commits some finite set of claims or fails; parsers, normalisation and their regular expressions are not modelled.
- Upload validation and duplicate detection, and publishing to Kafka instead of processing at once: the model starts from the row an accepted upload commits.
- The lease of 900 s is assumed to be long enough: a worker that holds a stage finishes or dies before it runs out. Without that, two workers could hold one stage.
- `PipelineRuns.GrantedIsFree`: reading and rewriting a job row is one atomic step, which rests on the row lock of `apps/api/app/services/pipeline.py:32`. SQLite, the default database (`apps/api/app/config.py:29`), ignores that lock; there two sessions that both find a FAILED job could both run it.
- `PipelineTheorems.OneCallFinishes` and the other pipeline theorems concern one item at a time; items share no row.
- Merkle hex strings that do not parse raise an exception in the source; the model works on the bytes they denote. SHA-256 is any function with 32-byte results. Anchoring to a ledger is not modelled.
- Candidate uniqueness concerns serialised resolve runs; no database constraint backs it for concurrent ones.
- `Matching.ScorePair`: the texts of signals, the matched names and the sides on which data is missing are not modelled; weights are exact hundredths. A name is its list of words.
- `Paging.Serve`: without Neo4j the listing is ordered by degree alone over a query that names no order (`apps/api/app/services/graph.py:64,188`); that equally connected nodes come in the same order on every request is assumed. `Paging.FollowAll` rests on it as well.
- `Paging.ListsEachNodeOnce`: rests on the same assumption.
- `MergeTheorem.LogsDecideStates`: the chain of superseded reviews is that of decisions made one after the other with distinct times; the source takes no lock and orders by time (`apps/api/app/routes/review_routes.py:97`), so concurrent decisions can supersede the same review.
- Whether evidence is ACTIVE is decided by a count taken before the decision is flushed; the model takes the count as given.
- `Projection.BuildProjection`: node attributes, kinds and access classes, and the governance fields copied onto edges, are not modelled; neither is the order of merged labels.
- `Aggregate.AggregateEdges`: decay scores, rounding and the copied nodes with their supernode flag are not modelled; a missing time and an empty one are one, as in the code.
- `RuleReports.RuleCandidates`: the order of reports and their texts are not modelled.
- `Bounded.Explore` leaves the order of equally connected neighbours open, as the source does.
- `Neo4jMirror.Mirror.WriteProjection`: a relation is identified by its ends and claim, which is what MERGE alone can create; centred reads, which the service does not use when the centre is known, are not modelled.
- `Worker.Consumer.PollTurn` concerns one assigned partition; the commit without arguments covers all partitions of a consumer, for which the safety claim does not follow.
- `NerMatching.ScoreOverlap`: precision, recall and the lists of error texts are not modelled.
- `Shares.SegmentedBar` rounds all parts at once, while the source leaves parts without a count out of the rounding and shows 0 for them, which is what their exact quota of 0 gives here. It uses exact quotients; the source computes them in floating point, where a whole quota may fall just below itself before the leftover repairs the sum.
- `Like.PatternFindsText` folds case and trims white space as ASCII does; Unicode folding can change lengths.
- `Extraction.Extractor.FindEntity`: two extractions that create one entity at the same time are separated by a unique constraint, which is not part of this model.
