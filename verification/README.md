# Verified model of the federated spam filter and its actor framework

This project models a federated Naive Bayes spam filter that runs on a small actor framework, and
proves what its parts and their composition guarantee. `dafny verify dfyconfig.toml` checks all of it.

**The training protocol.** A coordinator starts rounds, workers count the tokens of their shards, an
aggregator collects the counts and emits one model per round, and the coordinator evaluates it.
`FederatedRound.dfy` composes these actors into a state machine in which any number of rounds is under
way and the network reorders, loses and duplicates packets. `FederatedTheorems.dfy` proves, for all runs,
all shardings and all files, and for every round none of whose own packets was duplicated: every model
evaluated is exactly the one a single trainer gets from the whole training set; the round is not evaluated
twice; once the network is empty, it has been evaluated if and only if its files were readable and none of
its own packets was lost; deliveries come to an end. `FederatedOrigins.dfy` proves for every round,
duplicated packets or not, that its models are made of its own workers' shards only.
The pieces underneath are proved one by one: tokens, the TSV round trip and the sharding
(`Dataset.dfy`, `DatasetLaws.dfy`), counting and aggregation as loops over maps (`NaiveBayes.dfy`),
independence of order and split and the probability laws (`NaiveBayesLaws.dfy`), prediction and metrics
(`Prediction.dfy`) and what they mean (`PredictionLaws.dfy`),
the wire format (`Wire.dfy`), the aggregator under every message sequence (`Aggregator.dfy`), the worker
and the coordinator (`Training.dfy`), sending with retries (`Send.dfy`).

**Replicated counters.** `GCounter.dfy` models the grow-only counter and the registry actor around it,
and proves merging to be a least upper bound; `Gossip.dfy` proves, under a network that loses,
duplicates, delays and reorders snapshots, that replicas never overcount, and that a replica is exact if
and only if it has heard, directly or through others, from the owner of every node that completed a round
since that node's last one.

**The actor framework.** `Mailbox.dfy` models one mailbox with its senders, run loop and stopper under
every interleaving; `RunLoop.dfy` the run loop with behaviours, panics that unwind and are recovered, and
the error hook; `ActorSystem.dfy` the registry of cells under every interleaving of Spawn, Stop and
Shutdown.

**Provider-mode membership.** `Provider.dfy` models the provider, its clients and the network between
them.

`MapSums.dfy` holds the sums over maps and sequences that make "for range over a map" loops independent
of Go's unspecified iteration order, `Sorting.dfy` the order of sorted strings, `Wrappers.dfy` an option
type.

## How the model reads the code

- An object whose methods change its fields is a class. Each method is proved equal to a step function
  on values (`Aggregator.Step`, `Training.StartRound`, `GCounters.CounterStep`, `Provider.PeersAfter`,
  `RunLoop.Delivered`, …), and the training, gossip, provider and cell-registry state machines are built
  from those same step functions. The provider's clients take several steps for one method call;
  `Provider.RegistrationIsPath` ties the two together. `Mailbox`, where every method is torn apart by
  other goroutines, is a state machine only. A loop is a loop with invariants.
- Iterating over a Go map picks the next key arbitrarily, so a proved result holds for every order.
- Probabilities are exact reals, and a sum of logarithms is the product it is the logarithm of.
- A state machine step is one critical section, one channel operation, one select, or one message
  handled. Runs are sequences of states; a theorem about `states[i]` is about every reachable state.
- Assumptions are part of the step relations or of a theorem's conditions: the round theorems speak of
  rounds without duplicated packets (what duplication does is proved too, see
  `FederatedOrigins.ModelsAreOwn`, `Aggregator.FirstUpdatesWin` and `Aggregator.DuplicateStandsIn`), a
  node's component of the counter is incremented at one replica only
  (`internal/crdt/gcounter.go:17-18`), and clients of the provider have distinct ids.

Where the code and its comments part, the model follows the code:

- `Merge` is documented as commutative and associative (`internal/crdt/gcounter.go:26-28`). With negative
  components, which `Increment` accepts, it is neither (`GCounters.MergeNeedNotCommute`,
  `GCounters.MergeNeedNotAssociate`). `GCounters.MergeCommutesExactlyWhen` and
  `GCounters.MergeAssociatesExactlyWhen` give the exact conditions.
- A `Tell` that returns nil need not be delivered: a sender past its first check can send behind the stop
  signal (`Mailbox.AcceptedButNeverDelivered`). An accepted message is delivered exactly when it was sent
  before the stop signal (`Mailbox.DeliveredExactlyWhen`). The promise documented at
  `pkg/actor/system.go:57-60` holds (`Mailbox.StopDeliversEarlierMessages`), and a `Tell` that begins after
  the mailbox was closed is never accepted (`Mailbox.LateTellsAreRejected`).
- `Stop` is documented to terminate "the actor referenced by pid" and to wait for it to exit
  (`pkg/actor/system.go:57`). It looks the id up again and stops whatever cell is registered under it then.
  `ActorSystems.WhomStopStops` says for all runs whom it stops and when it stops nobody and returns at once;
  `ActorSystems.StalePidStopsAnother` and `ActorSystems.SecondStopDoesNotWait` are runs in which it stops
  another actor, and in which it does not wait.
- An actor that stops itself from its own handler never gets out of that call
  (`Mailbox.SelfStopNeverReturns`, `Mailbox.SelfStopOccurs`).
- A panic is contained, as documented at `pkg/actor/actor.go:29-30`, for actors without an error hook
  (`RunLoop.PanicsAreContained`). A hook can call `Become` and so change how later messages are handled
  (`RunLoop.HookMayBecome`), and a hook that panics ends the loop (`RunLoop.HookMayCrash`). The loop gets to
  a message exactly when no hook call before it panics (`RunLoop.ReachedExactlyWhen`).
- `VocabSize` is not sent but rebuilt from some class's table. That is right exactly when the sender's model
  has a class or no vocabulary (`Wire.RebuiltExactlyWhen`, `Wire.RebuiltDiffers`), which holds for all
  counts that come from `CountLocal` (`Wire.RebuiltFromLocals`).
- `Load` undoes `Save` only for TSV-safe records; `Dataset.RoundTripExactlyWhenSafe` says exactly which, and
  `Dataset.CarriageReturnIsLost` and `Dataset.TabMovesTheLabel` show records that come back changed.

## Model

| member | source | states |
|---|---|---|
| FederatedTheorems.FederatedEqualsCentral | internal/fl/fl_test.go:16-73 | in every run, with any losses and reordering and whatever happens to other rounds, a model evaluated for a round with no duplicated packet, whose files hold a sharding of a TSV-safe training set, is the model trained centrally on the whole set, and its metrics are an evaluation of that model |
| FederatedTheorems.FederatedMetricsEqualCentral | internal/fl/fl_test.go:67-69 | the reported metrics equal those of central training when the central model decides for every test text whether it is spam |
| FederatedTheorems.ModelsAreComplete | internal/fl/aggregator.go:50-60 | whatever the files hold, a model evaluated for a round with no duplicated packet is the central model of everything its workers read, one shard per worker, all readable |
| FederatedOrigins.ModelsAreOwn | internal/fl/aggregator.go:40-60 | whatever is lost, reordered or duplicated, a model of a round is the central model of shards read by workers of that round, at least as many as there are workers |
| FederatedOrigins.StepKeepsOrigins | internal/fl/aggregator.go:35-70 | every step, losses and duplications included, keeps every update, holding and model with its own round |
| FederatedOrigins.UpdatesAreSigned | internal/fl/worker.go:36-42 | in every run an update in flight bears the id of the worker that was sent its path and carries the counts of that very file |
| FederatedTheorems.EvaluatedExactlyWhen | internal/fl/coordinator.go:38-77 | with no packet left in flight, a round with no duplicated packet has been evaluated once if all its files were readable and none of its own packets was lost, and otherwise not at all |
| FederatedTheorems.LostExactlyWhen | internal/fl/send.go:14-28 | a round counts as having lost a packet exactly when some step of the run lost a packet of that round |
| FederatedTheorems.DuplicatedExactlyWhen | internal/fl/send.go:14-28 | and as having had one duplicated exactly when some step duplicated one |
| FederatedTheorems.CentralModelArrives | internal/fl/fl_test.go:63-69 | a round that had no packet lost or duplicated ends with exactly one evaluation, of the centrally trained model |
| FederatedTheorems.AtMostOnce | internal/fl/aggregator.go:58-60 | no round with no duplicated packet is evaluated twice, in any run |
| FederatedTheorems.MissingUpdateMeansNoModel | internal/fl/aggregator.go:53-56 | once an unfinished round lacks an update, because it was lost or its file is unreadable, it never produces a model in any continuation in which none of its packets is duplicated |
| FederatedTheorems.RoundsNeverReused | internal/fl/coordinator.go:44-45 | round ids strictly increase over a run and a started round keeps its id and paths |
| FederatedTheorems.DeliveriesEnd | internal/fl/coordinator.go:44-58 | without starts and duplications the number of steps is bounded by the weight of the packets in flight |
| FederatedTheorems.NeverStuck | internal/fl/coordinator.go:29-36 | as long as a packet is in flight some actor can take it |
| FederatedTheorems.ShardsAreRead | internal/fl/worker.go:30-36 | files that hold the saved shards of a TSV-safe set are read back as exactly those shards |
| FederatedTheorems.RunKeepsInv | internal/fl/aggregator.go:35-70 | the protocol invariant holds in every state of every run |
| FederatedRound.StepKeepsInv | internal/fl/aggregator.go:35-70 | every step of every actor, every loss and every duplication, keeps the protocol invariant: in rounds with no duplicated packet no contribution is around more often than it was sent, and in intact ones each is around exactly as often |
| FederatedRound.BatchIsComplete | internal/fl/aggregator.go:52-60 | for a round with no duplicated packet the aggregator fires only with exactly all contributions of that round in hand |
| FederatedRound.CompleteBatch | internal/nb/nb.go:51-69 | counts that are, as a multiset, all contributions of a round give the round's model |
| Aggregator.AggregatorActor.Receive | internal/fl/aggregator.go:35-48 | a trigger overwrites the expectation, an update is unwrapped and appended, and both lead to the same check; new state and messages sent are those of the step function |
| Aggregator.AggregatorActor.Maybe | internal/fl/aggregator.go:52-70 | nothing happens before the announced number of updates is there; then one model is sent and both entries of the round are deleted |
| Aggregator.UpdatesConserved | internal/fl/aggregator.go:40-60 | for every message sequence and round, the updates received are, in order, those combined so far followed by those pending |
| Aggregator.OnePerTrigger | internal/fl/aggregator.go:37-39 | a round is aggregated at most once per trigger |
| Aggregator.BatchesAreFull | internal/fl/aggregator.go:53-56 | an aggregation never holds fewer updates than some trigger of its round announced |
| Aggregator.ViewNext | internal/fl/aggregator.go:35-60 | messages of other rounds change nothing for a round |
| Aggregator.RoundOutcome | internal/fl/aggregator.go:50-60 | with one trigger and at most the announced updates, in any order, a round is aggregated exactly when all are there, from exactly those, and leaves nothing behind |
| Aggregator.EmittedAtTheLastMessage | internal/fl/aggregator.go:50-56 | the model is emitted at the last of a round's n + 1 messages and not before |
| Aggregator.Confluence | internal/fl/aggregator.go:50-69 | any two orders of a round's messages, interleaved with anything, make the aggregator send the same single model |
| Aggregator.FirstUpdatesWin | internal/fl/aggregator.go:40-60 | for any number of updates, duplicates included, the model is made of the first n to arrive, or of all that preceded the trigger if those were more; the others stay behind |
| Aggregator.DuplicateStandsIn | internal/fl/aggregator.go:40-46 | an update that arrives twice takes the place of a missing one, since worker ids are not looked at |
| Training.WorkerReceive | internal/fl/worker.go:24-46 | a train request is answered with the counts of the named file, or with nothing if it cannot be loaded |
| Training.CoordinatorActor.StartTraining | internal/fl/coordinator.go:38-58 | a round takes the next id and sends one trigger and one request per worker, unless the number of paths is not the number of workers |
| Training.StartSends | internal/fl/coordinator.go:44-57 | a round's first message is the trigger that announces as many updates as there are workers, and worker k is sent the k-th path; any other number of paths starts nothing |
| Training.CoordinatorActor.EvaluateModel | internal/fl/coordinator.go:60-77 | one result is appended: an evaluation of a model rebuilt from the message |
| Send.Link.SendWithRetry | internal/fl/send.go:14-28 | which attempts are made, what is returned and how many copies arrive, for every sequence of outcomes |
| Send.CopiesAre | internal/fl/send.go:19-27 | at most ten attempts; the number of copies is one for success plus one per attempt that only seemed to fail |
| Send.StopsAtFirstSuccess | internal/fl/send.go:19-27 | sending succeeds exactly when one of the attempts does, and stops at the first that does |
| Send.TenAttempts | internal/fl/send.go:15-27 | there are ten attempts at most, and it gives up only after the tenth |
| Send.LocalSendIsAtMostOnce | internal/fl/send.go:14-28 | where attempts do not fail after delivery, a message arrives once if the send succeeds and not at all otherwise |
| NaiveBayes.CountLocal | internal/nb/nb.go:19-33 | per class the histogram of its records' tokens and their number; a class without tokens has an empty row and no total |
| NaiveBayesLaws.CountsAreOccurrences | internal/nb/nb.go:18-33 | a count is the number of positions at which the word stands in the class's texts, a total the number of the class's tokens; rows, entries and totals exist exactly for labels, words and classes that occur |
| NaiveBayes.Aggregate | internal/nb/nb.go:42-93 | the smoothed formula over the summed counts for every class with a total and every word of the shared vocabulary, and the token-share priors |
| NaiveBayes.Combine | internal/nb/nb.go:56-69 | counts, totals and vocabulary summed over all updates, for any iteration order |
| NaiveBayesLaws.ModelIgnoresOrder | internal/nb/nb_test.go:56-74 | the model depends on the multiset of updates only |
| NaiveBayesLaws.ModelIgnoresSplit | internal/nb/nb_test.go:64-73 | any two shardings of the same records give the same model |
| NaiveBayesLaws.FederatedIsCentral | internal/nb/nb.go:42-44 | aggregating any sharding gives the model of the whole set |
| NaiveBayesLaws.ShardSums | internal/nb/nb.go:56-69 | word counts and class totals summed over the shards are those of the concatenation |
| NaiveBayesLaws.DistributionExactlyWhenTotalsAgree | internal/nb/nb.go:46-46 | for arbitrary updates P(word given c) sums to one exactly when the class total is the sum of the class's word counts |
| NaiveBayesLaws.WordProbsAreDistribution | internal/nb/nb.go:79-85 | on counts made by CountLocal every P(word given class) is positive and they sum to one over the shared vocabulary |
| NaiveBayesLaws.WordProbsInProportion | internal/nb/nb.go:46-46 | the word probabilities of a class are in proportion to the combined counts plus one |
| NaiveBayesLaws.PriorsAreDistribution | internal/nb/nb.go:72-90 | with a token present the priors sum to one and are positive exactly for the classes with tokens |
| NaiveBayesLaws.PriorsInProportion | internal/nb/nb.go:48-50 | the priors are in proportion to the class totals |
| Prediction.Predict | internal/nb/nb.go:98-118 | the answer is a class of maximal prior times word probabilities among those with a positive prior, or the empty string if there is none, for any iteration order |
| PredictionLaws.ScoreIsProduct | internal/nb/nb.go:106-111 | a class's score is its prior times the product, over the words it knows, of P(word given class) to the power of the word's number of occurrences; it has no value exactly when a known token has a negative probability |
| PredictionLaws.AnswerMaximisesPosterior | internal/nb/nb.go:95-118 | the answer has a positive prior times that product, and at least that of every other competing class; it is the empty string when no class has one |
| PredictionLaws.AggregatedAnswerMaximises | internal/nb/nb.go:95-118 | on an aggregated model with tokens the answer maximises it among the classes with tokens |
| Prediction.AggregatedPrediction | internal/nb/nb.go:95-118 | on an aggregated model exactly the classes with tokens compete, so a class is predicted exactly when there is a token |
| Prediction.UniqueBestIsOrderFree | internal/nb/nb.go:102-117 | the answer does not depend on the iteration order when the best class is unique |
| Prediction.EvaluationExists | internal/nb/nb.go:131-163 | every model and test set have an evaluation |
| Prediction.EvaluationIsOrderFree | internal/nb/nb.go:131-163 | the metrics are a function of model and test set as soon as the best classes of every test text are all spam or all not |
| Prediction.Evaluate | internal/nb/nb.go:131-163 | the metrics are those of the confusion counts of admissible predictions |
| PredictionLaws.EvaluationMeans | internal/nb/nb.go:129-163 | metrics are an evaluation exactly when they describe admissible answers: precision is the share of spam among the records called spam, recall the share called spam among the spam records, accuracy the share called right, F1 the harmonic mean, all zero without a denominator |
| PredictionLaws.MetricsExactlyDescribe | internal/nb/nb.go:149-162 | for given answers only the computed metrics fit that description |
| Prediction.ConfusionCounts | internal/nb/nb.go:132-147 | the four counts partition the test set by label and by answer, and there are no errors exactly when every record was called what it is |
| Prediction.MetricsBounds | internal/nb/nb.go:149-162 | all metrics are in [0, 1], F1 lies between precision and recall, accuracy is one exactly on a non-empty set without errors |
| Prediction.F1Closed | internal/nb/nb.go:159-161 | F1 = 2tp / (2tp + fp + fn) whenever that is defined |
| Dataset.TokensAreWords | internal/dataset/dataset.go:26-31 | tokens are non-empty words of lower-case letters and digits |
| DatasetLaws.WordIsToken | internal/dataset/dataset.go:26-31 | a word of ASCII letters and digits is one token, with its letters in lower case, by character code |
| DatasetLaws.SeparatorCuts | internal/dataset/dataset.go:26-31 | the tokens of a text are those before and those behind an ASCII character that is neither letter nor digit |
| DatasetLaws.LowerCases | internal/dataset/dataset.go:29-30 | lower-casing goes character by character; besides ASCII only the Kelvin sign and the dotted capital I become ASCII |
| Dataset.RunsSplitAtSeparator | internal/dataset/dataset.go:26-31 | nothing is matched across a separator, and both sides are matched on their own |
| Dataset.RunsOfWord | internal/dataset/dataset.go:26-31 | an alphanumeric string is one match |
| Dataset.Load | internal/dataset/dataset.go:34-59 | the records of the file, or the error of its first bad line, or that it cannot be opened |
| Dataset.ReadEntry | internal/dataset/dataset.go:44-53 | one line: blank lines are skipped, over-long and tab-less lines are errors, others are split at the first tab |
| DatasetLaws.FirstLine | internal/dataset/dataset.go:44-53 | a file's first line is too long, blank, without a tab, or a record cut at its first tab, and decides accordingly whether and how reading goes on |
| DatasetLaws.LastLine | internal/dataset/dataset.go:44-53 | the last line needs no newline, and an empty file has no records |
| DatasetLaws.OpenedExactlyWhen | internal/dataset/dataset.go:35-38 | loading fails to open exactly when the file is missing |
| Dataset.Save | internal/dataset/dataset.go:62-76 | the lines of all records, in order |
| DatasetLaws.SavedLines | internal/dataset/dataset.go:70-74 | every record adds its label, a tab, its text and a newline, and nothing else |
| Dataset.RoundTripExactlyWhenSafe | internal/dataset/dataset_test.go:17-29 | Load undoes Save exactly for lists of records without tab or newline in the label, without newline or final carriage return in the text, and below the line limit |
| Dataset.CarriageReturnIsLost | internal/dataset/dataset.go:42-53 | a text that ends in a carriage return is read back without it |
| Dataset.TabMovesTheLabel | internal/dataset/dataset.go:49-53 | a label with a tab is read back as a shorter label and a longer text |
| Dataset.DecodedIsClean | internal/dataset/dataset.go:44-53 | whatever the file, loaded labels have no tab or newline and texts no newline |
| Dataset.Partition | internal/dataset/dataset.go:97-115 | n contiguous shards that concatenate to the input, the larger ones first, sizes differing by at most one; none for n <= 0 |
| DatasetLaws.PartitionExactlyWhenBalanced | internal/dataset/dataset.go:95-115 | the shards are exactly the n contiguous ones, in order, with larger ones first and none larger than another by more than one |
| Dataset.PartitionIsUnique | internal/dataset/dataset_test.go:62-78 | concatenation and sizes determine the sharding |
| Wire.MakePBWordCounts | internal/fl/convert.go:8-14 | every class's counts are wrapped |
| Wire.ReadPBWordCounts | internal/fl/convert.go:16-22 | every class's counts are unwrapped |
| Wire.MakePBWordProbs | internal/fl/convert.go:24-30 | every class's probabilities are wrapped |
| Wire.ReadPBWordProbs | internal/fl/convert.go:32-38 | every class's probabilities are unwrapped |
| Wire.CopyMap | internal/fl/convert.go:40-54 | the copied map has the same entries |
| Wire.UpdateRoundTrip | internal/fl/worker.go:37-42 | the aggregator reads from an update the counts the worker put in |
| Wire.WordProbsRoundTrip | internal/fl/convert.go:24-38 | unwrapping undoes wrapping |
| Wire.Rebuild | internal/fl/coordinator.go:61-68 | the rebuilt model takes tables and priors from the message and the vocabulary size from some class |
| Wire.RebuiltExactlyWhen | internal/fl/coordinator.go:60-68 | whichever class is looked at, the rebuilt model is the sender's exactly when that has a class or no vocabulary |
| Wire.RebuiltFromLocals | internal/fl/coordinator.go:60-68 | for updates made by CountLocal the rebuilt model is always the sender's |
| Wire.RebuiltDiffers | internal/fl/coordinator.go:65-68 | the update with one word for ham and no class totals has a positive vocabulary size at the sender and zero at the receiver |
| GCounters.GCounter.FromSnapshot | internal/crdt/gcounter.go:63-69 | a counter with exactly the entries of the snapshot |
| GCounters.GCounter.Increment | internal/crdt/gcounter.go:19-24 | one component grows by delta, of either sign; the others stay |
| GCounters.GCounter.Merge | internal/crdt/gcounter.go:29-41 | the per-node maximum, an absent entry read as zero and no zero entry stored; nil changes nothing, and merging a counter with itself is allowed |
| GCounters.MergedKeys | internal/crdt/gcounter.go:36-40 | a merge stores no zero entry that was not there, and drops none |
| GCounters.GCounter.Value | internal/crdt/gcounter.go:44-50 | the sum of all components |
| GCounters.GCounter.Snapshot | internal/crdt/gcounter.go:54-60 | a copy of all components |
| GCounters.RegistryActor.Receive | internal/registry/registry.go:33-63 | the effect of each message on the active set and the counter, and the reply, with the active nodes in ascending order, to a query that names a recipient |
| GCounters.RegistryActor.ListActive | internal/registry/registry.go:52-56 | the one ascending list of the active nodes, whatever the iteration order |
| Sorting.ListingIsUnique | internal/registry/registry.go:52-56 | a set has only one ascending list of its elements |
| Sorting.SortStringsSorts | internal/registry/registry.go:56-56 | sorting gives the same elements in ascending order |
| Sorting.LeqByFirstDifference | internal/registry/registry.go:56-56 | strings are ordered by the first byte in which they differ, and a proper prefix comes first |
| Sorting.LeqBehindPrefix | internal/registry/registry.go:56-56 | common beginnings do not matter for the order |
| GCounters.ActiveExactlyWhen | internal/registry/registry.go:35-38 | a node is active exactly when it has joined and not left since |
| GCounters.CounterCountsCompletions | internal/registry/registry.go:33-46 | over every message sequence without merges each component is the number of its node's RoundComplete messages and the value the number of all, whatever nodes join, leave or ask |
| GCounters.CounterNeverShrinks | internal/registry/registry.go:33-46 | no message of any kind makes a component smaller |
| GCounters.MergedAbove | internal/crdt/gcounter.go:26-41 | a merge is above both operands and below every common bound |
| GCounters.MergeAllIsLeastUpperBound | internal/crdt/gcounter.go:26-41 | merging a sequence of snapshots into a non-negative counter gives the least counter above all of them |
| GCounters.MergeOrderIrrelevant | internal/crdt/gcounter.go:26-28 | the same snapshots in any order and with any repetition give equal lookups and the same value |
| GCounters.MergeIdempotent | internal/crdt/gcounter.go:26-28 | repeating a merge changes nothing, whatever the signs |
| GCounters.MergeCommutesExactlyWhen | internal/crdt/gcounter.go:26-28 | merge commutes exactly when no component is negative on one side and missing on the other |
| GCounters.MergeNeedNotCommute | internal/crdt/gcounter.go:26-28 | a counter with a negative component for which it does not commute |
| GCounters.MergeAssociatesExactlyWhen | internal/crdt/gcounter.go:26-28 | the exact condition for merge to associate |
| GCounters.MergeNeedNotAssociate | internal/crdt/gcounter.go:26-28 | three counters for which it does not associate |
| Gossip.StepKeepsInv | internal/registry/registry.go:39-42 | every completion, sending and delivery keeps every component, in replicas and in snapshots in flight, at most the owner's own count, and the owner's exact |
| Gossip.NeverOvercounts | internal/registry/registry.go:11-14 | no replica ever reports more than the number of RoundComplete messages handled |
| Gossip.ReplicasGrow | internal/crdt/gcounter.go:5-7 | no component of a replica ever shrinks |
| Gossip.HeardMeansKnown | internal/crdt/gcounter.go:5-7 | a replica that has heard from another, directly or through third ones, knows at least what that one knew |
| Gossip.KnownMeansHeard | internal/crdt/gcounter.go:5-7 | a replica whose component has reached a completion has heard, directly or through third ones, from the node's owner since |
| Gossip.ExactExactlyWhen | internal/registry/registry.go:11-14 | after a node's last completion a replica has the node's exact count if and only if it has heard from the node's owner since that completion |
| Gossip.ConvergedExactlyWhen | internal/registry/registry.go:11-14 | at the end of any run a replica has every exact count, and equally its value is the number of RoundComplete messages handled, if and only if it has heard from the owner of every node that completed a round, each since that node's last completion |
| Gossip.ReplicasConverge | internal/registry/registry_test.go:93-133 | all such replicas agree, component by component and in value |
| Gossip.InterleavedRunConverges | internal/registry/registry_test.go:93-133 | a run in which a replica merges the other's final snapshot before completing its own round, and both converge |
| Mailbox.StepKeepsInv | pkg/actor/mailbox.go:23-43 | every select, channel operation and hook keeps the channel's history: what was taken, then what is queued, without repetition, and exactly the accepted messages |
| Mailbox.NeverOverfull | pkg/actor/mailbox.go:15-20 | the channel never holds more than its capacity, and without a buffer only what a waiting loop is about to take |
| Mailbox.WaitsExactlyWhenFull | pkg/actor/mailbox.go:22-31 | a Tell past its first check has to wait exactly while the channel is full |
| Mailbox.RejectedMeansClosed | pkg/actor/mailbox.go:24-33 | a Tell is rejected only after some step closed the mailbox |
| Mailbox.DeliveredIsPrefixOfSent | pkg/actor/cell.go:44-57 | messages are delivered in channel order, without gaps and each at most once |
| Mailbox.StopDeliversEarlierMessages | pkg/actor/system.go:57-60 | when Stop returns, every message whose Tell returned nil before Stop began has been delivered |
| Mailbox.NothingAfterExit | pkg/actor/cell.go:71-79 | once the run loop has exited, hence after OnStop, nothing is delivered |
| Mailbox.DeliveredExactlyWhen | pkg/actor/cell.go:44-57 | over all runs: once the loop has exited, a message sent in step k was delivered exactly when the stop signal was sent in a later step |
| Mailbox.AcceptedWasSent | pkg/actor/mailbox.go:29-34 | a Tell has returned nil exactly when some step sent its message |
| Mailbox.ExitFollowsPush | pkg/actor/cell.go:73-73 | a stop past its push has a step that sent the signal |
| Mailbox.LateTellsAreRejected | pkg/actor/mailbox.go:23-28 | a Tell that begins after the mailbox was closed is rejected |
| Mailbox.AcceptedButNeverDelivered | pkg/actor/mailbox.go:23-35 | a run in which Tell returns nil and the message is never delivered |
| Mailbox.MeasureDrops | pkg/actor/cell.go:71-79 | after closing, every step but a rejected Tell makes a measure smaller |
| Mailbox.StopIsBounded | pkg/actor/cell.go:71-79 | the number of steps after closing is bounded by the measure at that moment |
| Mailbox.StopIsNeverStuck | pkg/actor/cell.go:71-79 | until a stop called from outside the actor has returned, the handler, the loop or the stopper can go on |
| Mailbox.SelfStopNeverReturns | pkg/actor/context.go:37-40 | a stop called by the actor's own handler never returns, nor does the handler, and nothing more is delivered |
| Mailbox.SelfStopOccurs | pkg/actor/context.go:37-40 | a run in which a handler stops its own actor |
| Mailbox.ExitNeedsSignal | pkg/actor/cell.go:49-57 | the loop has exited exactly when the signal was sent and taken |
| RunLoop.ActorCell.SetBehavior | pkg/actor/cell.go:32-34 | the behaviour is replaced |
| RunLoop.ActorCell.Perform | pkg/actor/cell.go:68-68 | code runs act by act, and a panic abandons the rest and unwinds |
| RunLoop.ActorCell.Deliver | pkg/actor/cell.go:59-69 | the current behaviour handles the message; a panic is recovered and handed to the error hook, if any, whose own acts take effect and whose own panic unwinds further |
| RunLoop.ActorCell.Run | pkg/actor/cell.go:49-57 | the queue is drained up to the stop signal or to a panic that leaves deliver; what was not taken stays queued |
| RunLoop.PerformedIs | pkg/actor/cell.go:59-69 | code leaves the last fields and behaviour set ahead of its first panic, and unwinds exactly when there is one |
| RunLoop.DeliveredIs | pkg/actor/cell.go:59-69 | one message leaves the behaviour and the fields last set by the effective acts of the handler and then of the hook |
| RunLoop.TrailEnds | pkg/actor/cell.go:49-69 | after any messages the actor has the last fields and the last behaviour that took effect, of a handler or of the hook |
| RunLoop.ActsBehindPanicsAreIdle | pkg/actor/cell.go:59-69 | what stands behind a panic, in handler or hook, has no effect on any run |
| RunLoop.ReachedExactlyWhen | pkg/actor/cell.go:49-69 | the loop gets to message k exactly when no hook call before it panics |
| RunLoop.HandledByLastBecome | pkg/actor/context.go:26-30 | every message the loop gets to is handled by the behaviour left by the last effective Become before it, of a handler or of the hook |
| RunLoop.ErrorsAreThePanics | pkg/actor/cell.go:60-67 | the error hook hears of exactly the panics of the handlers, in order |
| RunLoop.PanicsAreContained | pkg/actor/actor.go:29-30 | without a hook, or with one that does nothing to the actor, the loop never ends by a panic, and where handlers give up after the same acts does not matter |
| RunLoop.HookMayBecome | pkg/actor/cell.go:60-67 | a hook that calls Become changes how the next message is handled |
| RunLoop.HookMayCrash | pkg/actor/cell.go:60-67 | a hook that panics ends the loop with the next message unhandled |
| ActorSystems.ActorSystem.SpawnCell | pkg/actor/system.go:30-44 | a new cell is registered unless the id is in use |
| ActorSystems.ActorSystem.Lookup | pkg/actor/system.go:47-55 | the cell registered under the id, if any |
| ActorSystems.ActorSystem.StopPid | pkg/actor/system.go:61-72 | the cell registered under the pid's id is removed and stopped |
| ActorSystems.ActorSystem.ShutdownAll | pkg/actor/system.go:76-88 | exactly the registered cells are removed and stopped, each once |
| ActorSystems.StepKeepsInv | pkg/actor/system.go:30-88 | every critical section and every stop call keeps every cell in exactly one place |
| ActorSystems.ShutdownKeepsPlaces | pkg/actor/system.go:76-83 | Shutdown takes out exactly the cells registered at its critical section |
| ActorSystems.StoppedAtMostOnce | pkg/actor/system.go:61-88 | in every interleaving a cell is, exactly once, registered, about to be stopped or stopped |
| ActorSystems.AllStopped | pkg/actor/system.go:74-75 | when nothing is registered and no stop is outstanding, every cell ever spawned was stopped exactly once |
| ActorSystems.RegisteredExactlyWhen | pkg/actor/system.go:33-67 | over all runs: a spawned cell is registered exactly as long as its id has been neither stopped nor shut down since |
| ActorSystems.IdInUseExactlyWhen | pkg/actor/system.go:33-67 | an id is in use exactly when it was asked for after it was last taken out |
| ActorSystems.WhomStopStops | pkg/actor/system.go:57-72 | over all runs: Stop stops the pid's own actor exactly when its id was untouched since it was spawned, another's exactly when the id was taken out and registered again, and otherwise nobody |
| ActorSystems.StalePidStopsAnother | pkg/actor/system.go:61-72 | a run in which a stale pid stops an actor it does not refer to |
| ActorSystems.SecondStopDoesNotWait | pkg/actor/system.go:57-71 | a run in which a second Stop of a pid returns while the cell's stop has not even been called |
| Provider.ProviderActor.Receive | internal/cluster/provider.go:29-45 | joins insert, leaves delete, and an addressed discovery is answered with the members of that moment |
| Provider.MemberExactlyWhen | internal/cluster/provider.go:31-36 | over every message sequence an id is a member exactly when some join of it has no later leave of it |
| Provider.EntryExactlyWhen | internal/cluster/provider.go:31-36 | its entry is what the last such join says |
| Provider.ReplyListsLastJoins | internal/cluster/provider.go:42-50 | a reply lists exactly what the last joins not followed by a leave say |
| Provider.AskIsAnswered | internal/cluster/provider.go:37-62 | a client's request is answered with one reply that can be delivered to it and shows it the members of that moment |
| Provider.OnlyAddressedRequestsAreAnswered | internal/cluster/provider.go:42-45 | nothing but a request with a reply address is answered |
| Provider.ProviderActor.ListAll | internal/cluster/provider.go:47-50 | every member once, in any order |
| Provider.ProviderClientActor.OnStart | internal/cluster/provider_client.go:48-57 | the reference is kept and the client registers, unless dialing failed |
| Provider.ProviderClientActor.RegisterAndDiscover | internal/cluster/provider_client.go:79-94 | which messages reach the provider, for every sequence of outcomes |
| Provider.ProviderClientActor.ReceivePeerList | internal/cluster/provider_client.go:67-71 | the view is replaced by the received list |
| Provider.AskedAfterJoin | internal/cluster/provider_client.go:84-93 | a request for the peers reaches the provider only behind a join |
| Provider.ViewOfListing | internal/cluster/provider_client.go:68-71 | a listing in any order is read back as the membership it lists |
| Provider.ViewOfLast | internal/cluster/provider_client.go:68-71 | of several entries for an id the last one counts |
| Provider.ViewsAreMoments | internal/cluster/provider.go:42-50 | under loss, duplication, delay and reordering every client's view is the provider's membership at some moment |
| Provider.HistoryIsMembership | internal/cluster/provider.go:29-40 | in every run the membership, now and at every past moment, is what the messages handled by then make it |
| Provider.ViewsShowLastJoins | internal/cluster/provider.go:29-50 | every client's view is, for some moment, exactly what the last joins handled by then and not followed by a leave say |
| Provider.ClientsSeeThemselves | internal/cluster/provider_client.go:65-94 | as long as no leave was told for its id, whoever else leaves, every view a client has received shows itself at its own address |
| Provider.RegistrationIsPath | internal/cluster/provider_client.go:79-94 | from every state the steps of the state machine can do what one registration of the client does, handing over exactly its messages |
| Provider.DiscoveryIsComplete | internal/cluster/provider_test.go:95-138 | once every client is a member and no client leaves, a client that receives a reply sent since then sees all clients |

## Left out

- gRPC transport, dialing, `anypb` wrapping and generated protobuf code: only "an attempt may be lost, fail after delivery, or arrive later" is kept.
- `internal/cluster/p2p.go`: the peer-to-peer membership is that of an external library.
- `cmd/`: program entry points, flags, banners and logging.
- `SplitTrainTest`: depends on Go's random numbers and a float truncation; train and test sets are inputs.
- Floating-point rounding and `math.Log`: exact reals and products; bit-level equality of scores is not claimed.
- Machine integer overflow and the int/int64 conversions: counts and round ids are unbounded.
- `NaiveBayes.LocalCounts`: counts are naturals, so a forged update with negative counts is not modelled.
- Timers and delays between retries: a retry loop is its sequence of attempts.
- The blocking `Results` channel: an append-only sequence that is always there (the code also allows a nil channel).
- `Dataset.ToLower`: models the lower-casing of the characters a token can contain; the lower case of other characters, which no token can contain, is left as it is.
- `Dataset.Save`: the contents written; creating and flushing the file do not fail.
- Files do not change during a run of the training protocol.
- `Dataset.Partition`: returns sequences; that Go's shards share the input's backing array is not modelled.
- `Wire.ReadPBWordCounts`: a missing submessage, which Go reads as an empty table, is not told apart from an empty one, and counts are naturals.
- `Mailbox` is a state machine over the atomic steps of senders, loop and stopper instead of a class; the buffer's memory is not modelled.
- `RunLoop.ActorCell.Run`: runs on a queue given in advance; how it is filled concurrently is what `Mailbox` models. A handler's acts depend on the actor's fields, its behaviour and the message only; sends to other actors are not among them. OnStart is not modelled.
- `Mailbox`: handlers return; a panic that ends the loop also ends the Go process, so no step follows it.
- `ActorSystems.ActorSystem.StopPid`: waiting for the stopped actor is what `Mailbox` models, and two actors that stop each other are not modelled.
- The reply of a provider client to a local `QueryPeers`, and closing its connection: they only copy the view.
