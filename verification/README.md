# Models of the planner server's hard core

The server plans operator training for a game from a snapshot of player-written homework, runs optimisation jobs on
worker threads, and looks after accounts. These Dafny modules model the parts of it in which order, state or arithmetic
make it easy to be wrong, and prove what those parts are for.

**The snapshot splitter.** `SnapshotSplit` says, over a whole text and by index, what the splitter yields and whether it
accepts. `SnapshotReader` is the reader itself: a class that fills a buffer chunk by chunk and scans it in place, proved
against `SnapshotSplit`, so where chunks end cannot matter. `JsonText` is the JSON grammar of RFC 8259 (sections 2 to 7)
as documents with a printer; `JsonScan` and `SplitPrint` prove that splitting undoes printing, and `JsonUnique` that a
text has one meaning, so that a parser as they assume exists.

**The recommendation engine.** `Clustering` groups homework documents into families; `FiniteSums`, `Weights` and
`Scores` prove that the nested shares add up to one and bound every weight, and `Shares` what each class, category,
activity, stage and family gets of them; `Requirements` turns a homework row into a training target; `Frontier` proves
that four nested loops return exactly the least targets. `Evidence` and `Compaction` are the packed graph and the compact
public result; `EvidenceStore` is the database that stores it and how it is built, and `HotCache` the cache before it.

**Accounts and uids.** `Links` says what it is to be linked by a chain of groups, `UnionFind` is the parent map with path
compression, and `Accounts` uses both for uid aliases and for account groups. `RapidPath` is the greedy search for a
straight run from registration to export, and the split of all events over the groups.

**Protocols.** `Deletion` is account deletion as a state machine over its transactions, with `DeletionStore` the
transactions and the batch loop on mutable tables; `EmailOutbox` is the receipt mail, and `Leasing` the leases and retries
that both share. `Runner` is the job runner as a state machine over the stretches of code between awaits; `RunnerCalls`
says which store call ends an attempt, `RunnerPreemption` whom a paid job may replace, and `RunnerProcess` is the handlers
on mutable state, driven by any sequence of events. `LeaseTiming` is the heartbeat. `WorkerClient` matches requests with a
child process's replies; `Autoscaler` decides when to start and stop the worker machine.

**Prices.** `MaterialValue` is the payload budget, the recursive search it makes complete, and the lowest price of each
item.

Arithmetic that the original does in floating point is done over `real` or `int`. Identifiers that the original draws at
random (lock tokens, request ids) are numbers that the environment must choose fresh. Clock readings are parameters: a
step carries the instant its worker read, which may be older than the moment the step runs.

## Where the code does less, or other, than one would expect

- A trailing comma in `homeworks` is accepted exactly when a multiple of 256 elements precedes it
  (`SplitPrint.TrailingComma`).
- A homework row without warnings can still be infeasible: when its elite phase lies above the module's unlock phase and
  its level below the unlock level (`Requirements.CleanRowIsFeasible`). A branch of that row alone gets no target although
  training the unlock level as well would do (`Frontier.InfeasibleRowLosesTarget`). A branch with more rows can still get
  one, made of the phase of one row and the level of another (`Frontier.FrontierIsNotEmpty`, `Frontier.AlwaysGetsATarget`),
  but not always a least one; `Frontier.MinimalExactlyWhen` says exactly when the loops miss a least target.
- A deletion request that was already claimed can be restored, but only by a restore whose clock reading lies before the
  due time, that is, before the present (`Deletion.ClaimedIsRestoredOnlyByAnOldInstant`, `Deletion.RestoredAfterAClaim`).
- If the store hands out a job again while an earlier attempt of it is still in the map, the new attempt replaces the old
  one there, and the old one never settles: no message, timeout or shutdown reaches it (`Runner.SupersededWhen`,
  `Runner.OrphansNeverSettle`, `Runner.AnOrphan`). Every other claimed job is settled, preempted, or given back once.

## Model

| member | source | states |
|---|---|---|
| `SnapshotReader.Reader.Value` | server/cultivation/snapshot-reader.ts:26-58 | the scanning loop with depth, string and escape state returns the raw text of the next value, or fails, as the whole-text scanner does, however the text is cut into chunks |
| `SnapshotReader.Reader.ScanLoop` | server/cultivation/snapshot-reader.ts:31-53 | the loop stops where the whole-text scan ends, across any number of refills, and keeps exactly the text it passed |
| `SnapshotReader.Reader.Array` | server/cultivation/snapshot-reader.ts:75-86 | the homework loop yields the batches the whole-text specification yields and rejects alike |
| `SnapshotReader.Reader.Member` | server/cultivation/snapshot-reader.ts:63-91 | one turn of the envelope loop: a key not seen before, a colon, what follows, and a comma or the end |
| `SnapshotReader.Reader.Read` | server/cultivation/snapshot-reader.ts:59-95 | the entries and the verdict are a function of the concatenated text |
| `SnapshotReader.ReadTwice` | server/cultivation/snapshot-reader.ts:11-58 | any two ways of cutting one text, empty chunks included, give the same entries in the same order and the same verdict |
| `JsonScan.ScanDoc` | server/cultivation/snapshot-reader.ts:31-53 | inside a compound value any well-formed value, with brackets and escaped quotes inside its strings, leaves the scanner as it found it |
| `JsonScan.TakeDoc` | server/cultivation/snapshot-reader.ts:26-58 | the scanner cuts out exactly the printed text of the next value, whatever white space precedes it |
| `SplitPrint.BatchedPartitions` | server/cultivation/snapshot-reader.ts:76-85 | batching loses, doubles and moves no element; batches are full but for the last, and none is empty |
| `SplitPrint.BatchesSplit` | server/cultivation/snapshot-reader.ts:75-86 | the batches of a printed array parse to its elements' meanings, 256 at a time |
| `SplitPrint.TrailingComma` | server/cultivation/snapshot-reader.ts:79-85 | an empty last element is accepted iff the elements before it fill whole batches |
| `SplitPrint.BatchesGather` | server/cultivation/snapshot-reader.ts:80-85 | the yielded batches concatenate to the array's meaning |
| `SplitPrint.SkipKeepsOthers` | server/cultivation/snapshot-reader.ts:69-73 | skipping homeworks changes no other entry |
| `SplitPrint.MembersSplit` | server/cultivation/snapshot-reader.ts:63-94 | from any member on, the rest of a printed object is split into its members and accepted |
| `SplitPrint.SplitUndoesPrint` | server/cultivation/snapshot-reader.ts:5-96 | every well-formed object with distinct keys and a homework array is split into exactly its members, the homeworks in batches of at most 256 or as one empty list when skipped |
| `SplitPrint.AcceptedIsReady` | server/cultivation/snapshot-reader.ts:63-94 | from any member on, the rest of a printed object is accepted only if its keys are new and distinct, `homeworks` has come or comes, and it holds an array |
| `SplitPrint.AcceptedWhen` | server/cultivation/snapshot-reader.ts:59-95 | a well-formed object is accepted iff its keys are distinct and `homeworks` is among them, with an array |
| `JsonUnique.Unambiguous` | server/cultivation/snapshot-reader.ts:64-85 | two well-formed documents with the same text have the same meaning |
| `JsonUnique.TrailingCommaIsNoText` | server/cultivation/snapshot-reader.ts:79-85 | a batch with an empty last element is no well-formed text |
| `JsonUnique.FaithfulExists` | server/cultivation/snapshot-reader.ts:64-85 | there is a parser as the results above assume |
| `Frontier.JoinIsLeastUpperBound` | server/cultivation/recommendations.ts:83-86 | the join of rows covers them, is covered by whatever covers them, and is feasible if they are |
| `Frontier.CoversOrder` | server/cultivation/recommendations.ts:83-86 | `covers` is a partial order |
| `Frontier.CoveredWeightMonotone` | server/cultivation/recommendations.ts:215-216 | a target that covers another reaches at least its coverage |
| `Frontier.Visit` | server/cultivation/recommendations.ts:210-217 | one turn keeps the frontier pairwise incomparable and below every reaching grid point visited so far |
| `Frontier.BuildFrontier` | server/cultivation/recommendations.ts:204-217 | after the four loops every kept target reaches the coverage, no two are comparable, and every reaching grid point covers one |
| `Frontier.FrontierExists` | server/cultivation/recommendations.ts:210-217 | the loops have a result for every branch and coverage |
| `Frontier.FrontierIsLeastOnGrid` | server/cultivation/recommendations.ts:210-217 | whatever the rows, a target is in the frontier iff it is a least one among the grid points that reach the coverage |
| `Frontier.RaisedIsLeast` | server/cultivation/recommendations.ts:212-213 | raising a row to the unlock level, in the first phase that allows it, gives the least feasible target that covers it |
| `Frontier.RaisedJoinBelow` | server/cultivation/recommendations.ts:205-217 | below every reaching target lies a reaching one: the join of its covered rows, raised if need be |
| `Frontier.FrontierIsMinimal` | server/cultivation/recommendations.ts:202-217 | if the grid has the phases and levels that rows below the unlock level are raised to, a target is in the frontier iff it is a least one among all feasible targets that reach the coverage |
| `Frontier.MinimalExactlyWhen` | server/cultivation/recommendations.ts:202-217 | that condition is exact: the frontier is the set of least targets at every coverage iff it holds |
| `Frontier.MinimalExactlyWhenRoomy` | server/cultivation/recommendations.ts:202-217 | where every phase allows the unlock level: iff all rows with weight are feasible or some row has just the unlock level |
| `Frontier.FrontierIsNotEmpty` | server/cultivation/recommendations.ts:202-217 | a branch gets a target iff the phase of a row and the level of a row suit the limits and the module, and together cover enough |
| `Frontier.AlwaysGetsATarget` | server/cultivation/recommendations.ts:202-217 | a branch gets a target at every coverage iff some row's level suits the phase of the rows' join |
| `Frontier.LoneRow` | server/cultivation/recommendations.ts:210-217 | a branch of one row keeps a target iff that row is feasible |
| `Frontier.InfeasibleRowLosesTarget` | server/cultivation/recommendations.ts:212-214 | the family of rows without a target although raising the level alone would give one |
| `Requirements.Parse` | server/cultivation/requirements.ts:66-89 | the step-by-step normalisation yields the least target, in the order of `covers`, with the elite that was given, that the skill needs and that the module needs, the given level in the given phase and the unlock level in the module's phase; it warns of a skill iff the operator has no such skill, and of limits iff a field exceeds its own |
| `Requirements.ParsedOnce` | server/cultivation/requirements.ts:66-89 | this determines the requirement |
| `Requirements.TargetTraining` | server/cultivation/requirements.ts:77-83 | a row keeps its own elite and level unless the module's phase is as high, and then meets the unlock level |
| `Requirements.CleanRowIsReady` | server/cultivation/requirements.ts:75-87 | a row without warnings is feasible but perhaps for the unlock level |
| `Requirements.CleanRowIsFeasible` | server/cultivation/requirements.ts:76-87 | a row without warnings is feasible iff it has no module, its own elite is at most the unlock phase, or its own level meets the unlock level |
| `Weights.Tally` | server/cultivation/recommendations.ts:137-155 | the maps hold the number of families of each stage and the stages by category and activity |
| `Weights.SumOverFamilies` | server/cultivation/recommendations.ts:172 | dividing by the families of a stage preserves the sum over stages |
| `Weights.SumOverStages` | server/cultivation/recommendations.ts:168-169 | dividing by the stages of an activity preserves the sum, over the stages of any set of whole activities |
| `Weights.SumOverActivities` | server/cultivation/recommendations.ts:168-169 | dividing by the activities of a category preserves the sum, over any set of whole categories |
| `Weights.SumOverCategories` | server/cultivation/recommendations.ts:157-169 | the shares of all categories add up to one, also when a class is missing; which class gets how much is `Shares.ClassesGetTheirBudgets` |
| `Weights.FactorsSumToOne` | server/cultivation/recommendations.ts:157-172 | for every non-empty selection the factors of all documents add up to exactly 1 |
| `Shares.ClassesGetTheirBudgets` | server/cultivation/recommendations.ts:157-172 | the documents at permanent stages get exactly three tenths and the others seven tenths, or everything when a class is alone |
| `Shares.CategoriesShareAlike` | server/cultivation/recommendations.ts:168-172 | two categories of one class get the same sum |
| `Shares.ActivitiesShareAlike` | server/cultivation/recommendations.ts:168-172 | two activities of one category get the same sum |
| `Shares.StagesShareAlike` | server/cultivation/recommendations.ts:169-172 | two stages of one activity get the same sum |
| `Shares.FamiliesShareAlike` | server/cultivation/recommendations.ts:172 | two families of one stage get the same sum |
| `Weights.WilsonBounds` | server/cultivation/recommendations.ts:23-29 | 0 ≤ lower ≤ likes/n ≤ upper ≤ 1, and the lower end is positive iff there is a like |
| `Scores.DocumentWeightBound` | server/cultivation/recommendations.ts:163-172 | one document weighs between 0 and 110 times its factor |
| `Scores.CountsExactlyWhen` | server/cultivation/recommendations.ts:163-172 | a document with a positive factor has weight iff the upper end of its vote interval is at least 0.6 and it has a like, or no votes where uncertain ones are included |
| `Scores.QualityOfVotes` | server/cultivation/recommendations.ts:163-171 | such a document counts by the lower end of its interval, or by 0.05 without votes, and any other not at all |
| `Scores.FreshnessOfAge` | server/cultivation/recommendations.ts:172 | freshness rises evenly from a quarter to one over three days |
| `Scores.TotalWeightBound` | server/cultivation/recommendations.ts:161-180 | all documents together, and each operator, weigh at most 110 |
| `Clustering.SortedIsOrdered` | server/cultivation/recommendations.ts:97 | the documents come in strictly ascending order of publication, then id |
| `Clustering.PermutedSortsAlike` | server/cultivation/recommendations.ts:97 | any arrangement of the same documents sorts to the same list |
| `Clustering.FindHome` | server/cultivation/recommendations.ts:100-104 | the loop finds the first family whose anchor has Dice similarity at least 0.85 |
| `Clustering.GroupedKeepsAll` | server/cultivation/recommendations.ts:100-107 | in a bucket all members of a family are similar to its anchor and to no earlier family's, and no document is lost or doubled |
| `Clustering.Cluster` | server/cultivation/recommendations.ts:96-109 | the loop over all documents with its map of buckets gives the families of each bucket taken by itself, buckets in the order first met |
| `Clustering.EveryDocumentOnce` | server/cultivation/recommendations.ts:96-109 | every document is in exactly one family |
| `Clustering.CountsAddUp` | server/cultivation/recommendations.ts:110-111 | the counts of the families add up to the number of documents |
| `Clustering.OneBucketOneAnchor` | server/cultivation/recommendations.ts:98-106 | all documents of a family share stage, mode and skeleton and are similar to its first one |
| `Clustering.KeepVariants` | server/cultivation/recommendations.ts:112-118 | one document stays for each variant: most votes, ties to the smallest id |
| `Clustering.Prepare` | server/cultivation/recommendations.ts:88-119 | the families with key, date, count and kept documents are those of the sorted documents |
| `Clustering.OrderDoesNotMatter` | server/cultivation/recommendations.ts:97-119 | permuting the input leaves the families unchanged |
| `Evidence.FlagsRoundTrip` | server/cultivation/public-evidence.ts:19-41 | the three bits give the three flags back |
| `Evidence.Packer.Index` | server/cultivation/public-evidence.ts:16-24 | interning keeps the table free of duplicates, keeps old places, and returns the row's place |
| `Evidence.Packer.Pack` | server/cultivation/public-evidence.ts:25-35 | the packed graph represents the prepared one: every index in range and pointing at its row, rows distinct |
| `Evidence.RowRoundTrip` | server/cultivation/public-evidence.ts:39-42 | unpacking a packed requirement gives it back |
| `Evidence.GraphRoundTrip` | server/cultivation/public-evidence.ts:15-48 | unpacking the packed graph gives the graph back but for options without operator or with warnings |
| `Compaction.AddSampleKeeps` | server/cultivation/public-evidence.ts:63-79 | adding a sample keeps the tables duplicate-free, moves no old entry, and returns a number that stands for the sample |
| `Compaction.CompactExpands` | server/cultivation/public-evidence.ts:58-81 | expanding a branch's sample and group ids gives the projections of its samples, in order |
| `Compaction.SamplesTell` | server/cultivation/public-evidence.ts:58-81 | each number of a branch leads to a sample with its family, homework, stage place, weight, elite and mastery skill, and to the group of its usable alternatives with their operators, targets and skills |
| `Compaction.StageIndexIsLast` | server/cultivation/public-evidence.ts:61 | a stage place is the last row with the id, and there is none iff no row has it |
| `Compaction.CompactRecommendations` | server/cultivation/public-evidence.ts:58-81 | the loops with their maps compute the compact form |
| `Compaction.PackingPreservesMeaning` | server/cultivation/public-store.ts:141-160 | the compact result calculated from the unpacked graph equals the one calculated from the original, for every calculation on the data the engine reads |
| `EvidenceStore.Database.Build` | server/cultivation/public-store.ts:119-170 | does nothing iff a refresh finds the source unchanged and today's result stored; otherwise a refresh publishes the source's revision, any other build keeps the revision of a decodable snapshot of the same source and else publishes the source's; today's result is stored, other queries stay only if the snapshot did not change, and every stored result is the one of its path, revision, day and query |
| `EvidenceStore.Bound` | server/cultivation/public-store.ts:166-169 | deletes the rows beyond the limits |
| `EvidenceStore.NewestFirst` | server/cultivation/public-store.ts:162-169 | the row just stored survives the limits and the table stays sound |
| `EvidenceStore.ReadersRely` | server/cultivation/public-store.ts:141-164 | what a read transaction sees of a sound database is a function of path, revision, day and query |
| `EvidenceStore.ReadAfterBuild` | server/cultivation/public-store.ts:77-170 | whatever the cache held, a read after a build returns today's result of the published revision, which after a refresh is the one of the source |
| `HotCache.Cache.ReadCatalog` | server/cultivation/public-store.ts:65-75 | a new path or revision empties the cache, and only that |
| `HotCache.Cache.Evict` | server/cultivation/public-store.ts:93-97 | the eviction loop ends with the trimmed cache and its exact byte count |
| `HotCache.Cache.Use` | server/cultivation/public-store.ts:86-97 | hit or miss, the value is the stored one, and it becomes the newest entry if it fits |
| `HotCache.Cache.Read` | server/cultivation/public-store.ts:65-105 | the answer is the database's row; afterwards at most two entries and four megabytes, the byte count exact; any failure empties the cache |
| `HotCache.TrimmedIsLongest` | server/cultivation/public-store.ts:93-97 | what eviction leaves is the longest run of newest entries that fits |
| `HotCache.RecentlyUsedStays` | server/cultivation/public-store.ts:88-97 | the value just read survives if it fits, and the one before it whenever both fit |
| `EvidenceStore.KeptIsPrefix` | server/cultivation/public-store.ts:166-169 | the stored queries that stay are the longest run of latest ones with at most 64 rows and, beyond one row, at most 64 megabytes |
| `Links.StarsLink` | server/behavior-risk/scoring.ts:110-157 | joining each member to its group's first member links exactly what chains of groups link |
| `Links.LinkedIsEquivalence` | server/behavior-risk/scoring.ts:110-157 | being linked is an equivalence |
| `UnionFind.CompressKeepsRoot` | server/behavior-risk/scoring.ts:112-118 | path compression changes no root and makes no cycle |
| `UnionFind.LinkMovesTree` | server/behavior-risk/scoring.ts:122 | hanging one root under another moves exactly its tree |
| `UnionFind.Forest.Find` | server/behavior-risk/scoring.ts:112-118 | the recursion ends, returns the root, and changes no root |
| `UnionFind.Forest.Link` | server/behavior-risk/scoring.ts:138-142 | the parent map stays acyclic but for self-loops, and exactly one tree gets a new root |
| `Accounts.NormalizeUidAliases` | server/behavior-risk/scoring.ts:110-125 | two uids get the same representative iff a chain of events that list them together links them |
| `Accounts.SignalsAre` | server/behavior-risk/scoring.ts:399-427 | an event's signals are the non-empty values of its browser, and each non-empty network value with each non-empty user agent value, present and older ones |
| `Accounts.EnvironmentCohorts` | server/behavior-risk/scoring.ts:387-418 | the cohorts are, for each browser and each pair of network and user agent, the events that carry it |
| `Accounts.UniteCohorts` | server/behavior-risk/scoring.ts:145-150 | two users have the same root iff chains of cohorts with at least three users associate them |
| `Accounts.BuildAssociatedAccountGroups` | server/behavior-risk/scoring.ts:127-157 | the groups hold all users once each, and two users share a group iff they are associated over the last seven days |
| `Accounts.AssociationIgnoresOrder` | server/behavior-risk/scoring.ts:127-157 | association does not depend on the order or repetition of events |
| `RapidPath.GreedyIsEarliest` | server/behavior-risk/scoring.ts:302-312 | the greedy chain exists whenever any does, and none has an earlier bind, generate or export |
| `RapidPath.GreedyDecides` | server/behavior-risk/scoring.ts:302-317 | a registration begins a straight path iff the greedy one is straight |
| `RapidPath.FindRapidPath` | server/behavior-risk/scoring.ts:302-326 | a path is found iff some registration begins one; it is the first such registration's, with the earliest export |
| `RapidPath.FirstIsEarliest` | server/behavior-risk/scoring.ts:467-471 | on time-sorted events the first match is the earliest |
| `RapidPath.ByTimeSorts` | server/behavior-risk/scoring.ts:101-103 | the events the search sees are sorted by time |
| `RapidPath.Evaluate` | server/behavior-risk/scoring.ts:97-108 | each identified event with a valid time is seen by exactly one group's rules, sorted, with its uid canonical |
| `Deletion.KeepsInv` | server/account-data-lifecycle.ts:70-488 | every transaction keeps the invariant of requests, accounts, leases, claims and history |
| `Deletion.PendingMeansRequested` | server/account-data-lifecycle.ts:92-122 | in every run an account is pending deletion exactly while it has its one request |
| `Deletion.DeletedOnceAndNotEarly` | server/account-data-lifecycle.ts:407-464 | no account is deleted twice or before its due time, deleted ones stay gone, and each queued one receipt |
| `Deletion.AtMostEightClaims` | server/account-data-lifecycle.ts:369-405 | however workers crash, a request is claimed at most eight times and fails only after the eighth |
| `Deletion.OnlyTheHolderActs` | server/account-data-lifecycle.ts:407-488 | finalising or releasing takes effect iff the claim holds the current token, and then it is the newest claim |
| `Deletion.ClaimsExclude` | server/account-data-lifecycle.ts:369-405 | mutual exclusion: until five minutes after its instant a claim keeps its hold and no other claim gets the request, in every run in which its own worker does not give it up and the account is not removed |
| `Deletion.ClaimableAgain` | server/account-data-lifecycle.ts:369-405 | after a claim the request can be claimed again exactly from five minutes on and with attempts left |
| `Deletion.ReleasedWaits` | server/account-data-lifecycle.ts:466-488 | after a release the request can be claimed again exactly when it is due, its doubled delay is over, and fewer than eight attempts were made; after the eighth it has failed |
| `Deletion.AskedWaits` | server/account-data-lifecycle.ts:70-180 | a fresh request can be claimed exactly from a week on |
| `Deletion.RestoreUndoesAsking` | server/account-data-lifecycle.ts:70-246 | restoring a fresh request within the week undoes it, and later changes nothing |
| `Deletion.LostLeaseStaysLost` | server/account-data-lifecycle.ts:418-432 | a claim that lost its request never holds it again |
| `Deletion.ActingEndsTheLease` | server/account-data-lifecycle.ts:461-487 | finalising or releasing ends the claim's hold |
| `Deletion.FailedIsAbsorbing` | server/account-data-lifecycle.ts:373-391 | a failed request never changes; only removing its account removes it |
| `Deletion.ClaimedIsRestoredOnlyByAnOldInstant` | server/account-data-lifecycle.ts:190-246 | a claimed request is restored iff it is pending again and the restore's instant precedes the due time, which then precedes the present |
| `Deletion.RestoredAfterAClaim` | server/account-data-lifecycle.ts:190-246 | a run in which that happens |
| `Deletion.DelaysDouble` | server/account-data-lifecycle.ts:558-560 | retry delays double from a minute and stay below the cap of a day for all allowed attempts |
| `DeletionStore.Store.RequestDeletion` | server/account-data-lifecycle.ts:70-180 | a second request answers with the first one's date; an account that is not active is refused; otherwise the request is added and the account marked |
| `DeletionStore.Store.RestoreByToken` | server/account-data-lifecycle.ts:190-246 | restores iff a restorable request has the token |
| `DeletionStore.Store.RestoreOnLogin` | server/account-data-lifecycle.ts:186-246 | restores iff the password is right and the user's request is restorable |
| `DeletionStore.Store.Oldest` | server/account-data-lifecycle.ts:380-391 | the candidate is the oldest eligible row that is not locked |
| `DeletionStore.Store.ClaimDueDeletion` | server/account-data-lifecycle.ts:369-405 | sweeps exhausted rows to failed and leases the candidate under the fresh token; the claim then holds the row, which can be claimed again exactly from five minutes on and with attempts left |
| `DeletionStore.Store.FinalizeClaim` | server/account-data-lifecycle.ts:407-464 | true iff the token is current; then account and request go and the receipt is queued |
| `DeletionStore.Store.ReleaseClaim` | server/account-data-lifecycle.ts:466-488 | the row goes back to pending with its delay, or to failed after the last attempt, iff the token is current |
| `DeletionStore.Store.ProcessDue` | server/account-data-lifecycle.ts:269-293 | one batch tries each due request at most once, leaves none untried unless it is full, and counts the deleted accounts |
| `EmailOutbox.SentOrGivenUp` | server/account-data-lifecycle.ts:295-318 | a receipt is sent at most ten times, its row completed only after a send, and given up only after ten claims |
| `EmailOutbox.OnlyTheNewestActs` | server/account-data-lifecycle.ts:490-556 | only the newest claim of a mail can complete or release it |
| `EmailOutbox.ClaimsExclude` | server/account-data-lifecycle.ts:490-526 | mutual exclusion: until two minutes after its instant a claim keeps the mail and there is no other claim, in every run in which its own worker neither completes nor releases it |
| `EmailOutbox.ClaimableAgain` | server/account-data-lifecycle.ts:490-526 | after a claim the mail can be claimed again exactly from two minutes on and with attempts left |
| `EmailOutbox.FailedWaits` | server/account-data-lifecycle.ts:534-560 | after a failed delivery the mail waits its doubled delay, and after the tenth it is dead |
| `EmailOutbox.GoneStaysGone` | server/account-data-lifecycle.ts:305-309 | a completed or purged mail is never claimed again |
| `EmailOutbox.Outbox.ClaimEmail` | server/account-data-lifecycle.ts:490-526 | claims an eligible mail under the token for two minutes, dead-letters an exhausted one |
| `EmailOutbox.Outbox.Process` | server/account-data-lifecycle.ts:295-318 | delivery deletes the row, a failure releases it with its delay |
| `Runner.StepKeeps` | server/optimize-job-runner.ts:112-538 | every stretch of code keeps the invariant of map, attempts, tokens, calls and room |
| `Runner.OneTerminalCall` | server/optimize-job-runner.ts:401-522 | in every run at most one terminal store call is made for a claim |
| `RunnerCalls.CallsFollowCauses` | server/optimize-job-runner.ts:401-522 | in every run the call made for a spawned claim is the one that the event that made its attempt settle asks for: a message's own call, a retry after an end, a release at shutdown, a cancellation on request; a cancellation replaces it iff the job was found cancelled; and the worker was terminated first iff the call needs that |
| `RunnerCalls.NoCallIsMissing` | server/optimize-job-runner.ts:401-522 | an attempt that has settled made its call, unless the row could not be read or the worker not be terminated |
| `RunnerCalls.CauseFoundIt` | server/optimize-job-runner.ts:401-505 | the event that made an attempt settle concerned it and found it in the map, not settling |
| `RunnerCalls.RenewsUntilItSettles` | server/optimize-job-runner.ts:401-544 | an attempt renews its lease until it begins to settle, and after that only while its own message is being settled |
| `RunnerCalls.HowClaimsAreDealt` | server/optimize-job-runner.ts:184-253 | a claim is released iff nothing is accepted any more, retried iff its worker does not start, and else spawned as its own job |
| `RunnerPreemption.OnlyIdleIsPreempted` | server/optimize-job-runner.ts:210-234 | in every run only attempts at jobs of the idle class are preempted |
| `Runner.NeverOverLimit` | server/optimize-job-runner.ts:182-253 | the map never exceeds the highest concurrency limit read so far, preemption included |
| `Runner.EveryClaimAccountedFor` | server/optimize-job-runner.ts:182-253 | every claimed job is in the pump's hands, given back by exactly one release or retry, or spawned as exactly one attempt, which is in the map until it is settled, preempted or superseded |
| `Runner.ShutDownOnlyShrinks` | server/optimize-job-runner.ts:128-145 | once nothing is accepted the map only shrinks until re-initialisation |
| `Runner.SupersededWhen` | server/optimize-job-runner.ts:345 | an attempt loses its place to a later one iff a claim of the same job is spawned while it is there |
| `Runner.OrphansNeverSettle` | server/optimize-job-runner.ts:405-524 | a superseded attempt that was not settling never does |
| `Runner.AnOrphan` | server/optimize-job-runner.ts:182-193 | a run that ends with such an attempt |
| `Runner.AnswersSettle` | server/optimize-job-runner.ts:401-538 | every answer brings a settling attempt nearer its end, and the last takes it out of the map |
| `Runner.SettlesWhen` | server/optimize-job-runner.ts:401-505 | an attempt begins to settle exactly when its message, end, cancellation, interruption or preemption finds it in the map, and then stays settling |
| `Runner.FreedRoomIsUsed` | server/optimize-job-runner.ts:524-538 | after an attempt left the map while more could run, the pump is at work |
| `RunnerProcess.Process.Run` | server/optimize-job-runner.ts:112-538 | the handlers driven by any sequence of events from a fresh process on: the state is the machine's, the invariant holds, the map stays within the highest limit, no claim is ended by two store calls, the call that ends an attempt is the one its cause and its job's row ask for, and only a failure on the way leaves it out |
| `RunnerProcess.Process.InterruptRemaining` | server/optimize-job-runner.ts:140-143 | shutdown makes every attempt in the map settle and touches no other |
| `LeaseTiming.ThreeBeatsPerLease` | server/optimize-job-runner.ts:575-597 | whatever is configured, three heartbeats fit into a lease |
| `LeaseTiming.LiveExactlyWhile` | server/optimize-job-runner.ts:366-390 | an attempt renews exactly as long as no renewal was refused and no failure left the next tick too late |
| `LeaseTiming.DeadlineOfLastRenewal` | server/optimize-job-runner.ts:366-381 | while it renews its deadline counts from the tick of the last renewal |
| `LeaseTiming.NoLateBeat` | server/optimize-job-runner.ts:366-390 | no tick of an attempt that still renews comes at or after its deadline, through any mix of renewals and failures |
| `LeaseTiming.RegularTicksAreTimely` | server/optimize-job-runner.ts:339-340 | regular ticks, each answered before the next, satisfy the timing needed |
| `LeaseTiming.RenewalInTime` | server/optimize-job-runner.ts:370-381 | the bound on a renewal's answer is exact |
| `LeaseTiming.FailureStopsInTime` | server/optimize-job-runner.ts:382-386 | the stop test is exact: an attempt survives a failure iff every tick that may follow is in time |
| `LeaseTiming.Attempt.Beats` | server/optimize-job-runner.ts:366-390 | a life of ticks moves the deadline as specified |
| `WorkerClient.StepKeeps` | server/cultivation/worker-client.ts:21-114 | every handler keeps the invariant of worker, active task, promises and children |
| `WorkerClient.ResolvesToItsOwnReply` | server/cultivation/worker-client.ts:44-48 | a promise that resolves carries an answer some child gave to that very task |
| `WorkerClient.OneOutstandingTask` | server/cultivation/worker-client.ts:59-63 | no child ever owes more than one answer, and the current one owes none but the active task's |
| `WorkerClient.SettlesOnce` | server/cultivation/worker-client.ts:89-104 | a settled promise never changes |
| `WorkerClient.LateRepliesAreIgnored` | server/cultivation/worker-client.ts:44-45 | an answer from any child but the current one settles nothing |
| `WorkerClient.WhatSettles` | server/cultivation/worker-client.ts:44-114 | a pending promise settles exactly by its answer, its child's failure and, for the reader, cancellation, timeout or shutdown |
| `WorkerClient.HowItSettles` | server/cultivation/worker-client.ts:44-104 | a pending promise settles to the value or the fault that arrived, unless it was timed out or cancelled, which it then says; as unavailable when its child fails or exits; as restarting at a shutdown |
| `WorkerClient.AnswersTheActiveTask` | server/cultivation/worker-client.ts:44-48 | the answer that arrives from the current child is the one to the active task |
| `WorkerClient.HowItBegins` | server/cultivation/worker-client.ts:59-114 | a request is refused when cancelled, busy, or without a child or a channel to it, and else pending |
| `WorkerClient.RequestsAreSent` | server/cultivation/worker-client.ts:59-114 | a pending request was sent to the current child, which owes nothing else |
| `WorkerClient.MarksFromEvents` | server/cultivation/worker-client.ts:71-88 | in every run a pending promise counts as timed out or cancelled iff that happened to it |
| `WorkerClient.EveryPromiseSettlesAsCaused` | server/cultivation/worker-client.ts:21-114 | in every run each settled promise settled at one step, for the reason that step gives |
| `WorkerClient.GivenUpNeverResolves` | server/cultivation/worker-client.ts:80-103 | a promise that timed out or was cancelled while pending never resolves |
| `WorkerClient.Worker.Run` | server/cultivation/worker-client.ts:21-156 | the handlers driven by any sequence of events: a promise that resolves carries its own task's answer, each settled one settled at a step and for its reason, only the active one is pending, and no child owes two answers |
| `Autoscaler.Scaler.RunOnce` | server/optimize-worker-autoscaler.ts:42-85 | one tick, with every early return and failing call |
| `Autoscaler.Scaler.RunAll` | server/optimize-worker-autoscaler.ts:38-85 | over any ticks the actions are those the lemmas speak of |
| `Autoscaler.RemembersPending` | server/optimize-worker-autoscaler.ts:46-47 | the remembered power operation is the one whose effect was not seen yet |
| `Autoscaler.RunningBetweenStarts` | server/optimize-worker-autoscaler.ts:46-56 | between two successful starts a running machine was seen |
| `Autoscaler.StoppedBetweenStops` | server/optimize-worker-autoscaler.ts:47-84 | between two successful stops a stopped machine was seen |
| `Autoscaler.StartsExactly` | server/optimize-worker-autoscaler.ts:49-63 | exactly when a start succeeds |
| `Autoscaler.RemembersLull` | server/optimize-worker-autoscaler.ts:65-75 | the remembered instant is the first reading of the tick that began the lull still open |
| `Autoscaler.StopsExactly` | server/optimize-worker-autoscaler.ts:65-84 | exactly when a stop succeeds: a running machine with nothing running, no stop pending, and a lull of low, not stopped ticks that began at least the idle time ago |
| `MaterialValue.AssertBudget` | server/handlers/material-value.ts:468-484 | the worklist accepts iff the payload has at most 100000 nodes, none deeper than 8 |
| `MaterialValue.CollectArraysByKey` | server/handlers/material-value.ts:451-466 | within the depth limit the cut-off hides nothing |
| `MaterialValue.FoundIsComplete` | server/handlers/material-value.ts:451-466 | what is found is exactly the arrays that some node holds under the key |
| `MaterialValue.MinPositive` | server/handlers/material-value.ts:491-494 | the least positive price of the stages, none iff there is none |
| `MaterialValue.SetLowerPrice` | server/handlers/material-value.ts:486-489 | keeps each item at its lowest offer |
| `MaterialValue.FirstListCounts` | server/handlers/material-value.ts:416-431 | the value rows are the first array among the payload, its data, the four lists in its data and the four lists in it |
| `MaterialValue.FirstFieldCounts` | server/handlers/material-value.ts:335-357 | of the fields that can name an item or its value the first that is not null counts |
| `MaterialValue.LowestIsUnique` | server/handlers/material-value.ts:329-362 | the prices do not depend on the order of the offers |
| `MaterialValue.BuildPriceMap` | server/handlers/material-value.ts:329-362 | within the budget each item has exactly the lowest price the payload offers for it from its three sources |

## Left out

- `JSON.parse` is a function of the text; `SplitPrint` assumes of it only that it returns the meaning of well-formed texts,
  and a record's meaning keeps its fields as written, where JSON.parse merges repeated ones and reorders numeric ones.
  Strings are sequences of characters; UTF-8 decoding is not modelled.
- The key joins of the original (`stage:mode`, `browser:hmac`, `path:revision:day:query`) are tuples here, so a collision
  through a colon inside a part is not modelled.
- Floating-point rounding, the slack of `1e-9`, the decay factor and `log1p` are reals or bounded factors; the square root in
  `wilson` is any non-negative number with the right square.
- Free-text parsing of requirements, search matching, fingerprints and action skeletons are inputs.
- The selection by query, the status of an operator and the order of samples in a branch: `Compaction.PackingPreservesMeaning`
  holds for every calculation that reads what the engine reads.
- gzip, the JSON text of the packed graph and its chunks of 64 KiB, the schema check of the catalogue, and the SQLite file:
  a build is one atomic step, and one that throws leaves the database as it was.
- EvidenceStore.Database.Build: the rows are kept in the order of their last use; the clock that decides this order in the
  original is taken to move forward between builds.
- The `.sort()` of each account group, the rules applied to a group, and the path's signature text.
- Deletion of sessions, jobs, reservations and game accounts with a deletion request, and the purges of old records.
- EmailOutbox.Outbox.Process: one mail at a time; the choice among mails is the same as for deletion requests.
- Runner.NeverOverLimit: a limit that is lowered while a claim is under way does not hold this claim back; the bound is the
  highest limit so far.
- The stores behind the runner: only fresh tokens, and a preempted job drawn from the candidates, are assumed.
  Progress updates, performance logs and timers are not modelled, and the inline executor for tests is left out.
- RunnerProcess.Process.PumpCallAnswered: whether the call succeeded does not matter to the runner and is not an input; a
  call that throws ends the pump (`Runner.After`).
- WorkerClient.ResolvesToItsOwnReply: the child is taken to answer each task at most once and nothing it was not sent, as
  `cultivation-worker.ts` does (server/cultivation/cultivation-worker.ts:28-44).
- WorkerClient.WhatSettles: that a child answers or exits at all is not claimed. `readCultivationPlan` and its flags are not modelled.
- The ECS controller and the timer of the autoscaler.
- Fetching, caching and summarising price payloads; `stringValue` and `numberValue` are given functions.
