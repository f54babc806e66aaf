# Proofs about the voice repository

This project models the parts of the voice repository whose correctness is not visible from one
body, and proves that they do what they promise. `dafny verify
dfyconfig.toml` checks the whole project; nothing in it is meant to be executed.

* **Tensor graph lowering** (`Tensors`, `Einsum`, `Operators`, `Graphs`, `Contractions`,
  `SequenceContractions`, `GlobalContraction`, `AttentionLowering`, `AttentionPass`,
  `AttentionRewriter`, `AttentionCoverage`, `GeneratedNames`, `StrayInput`, `GatherPass`,
  `GatherCensus`, `GatherRewriter`, `CoreMlAdapters`, `GroupNorms`). A graph is a list of nodes in
  single assignment form and an evaluator binds names to tensors, a shape with its data in row-major
  order over the reals. Einsum is the general two-operand summation read off its equation text.
  Operators the passes do not touch are an arbitrary partial function, a parameter of every theorem.
* **Scoring** (`EditDistance`, `Matching`, `Orders`, `Padding`, `SpeakerTotals`, `SpeakerScore`,
  `Composition`, `IdentityVerdict`, `VerdictMeaning`, `IdentityEvaluation`). Word lists are given;
  three rolling-row loops compute one distance, and least-cost assignments are bijections of multisets.
* **Private-store brokers** (`CasStore`, `RegistryNames`, `RegistryBroker`, `BrokerReplies`,
  `RegistryPaging`, `PrivateBroker`, `PrivatePaging`). One answer step over a map of names to bytes; a
  failed assertion is a halt that keeps whatever was stored by then. The digest is a parameter,
  injective only where a statement says so.
* **Tensor repacking** (`GraphMessages`, `MessagePaths`, `WeightFiles`, `Repacking`, `RepackPromise`),
  **signing checks** (`Authenticode`, `PeImages`), **installed models** (`Snapshot`, `Catalog`),
  **adaptive depth** (`Halting`), **thresholds** (`ThresholdChoice`), **the sealed import registry**
  (`FrozenRegistry`) and **WAVE decoding** (`RiffWave`). `Wrappers`, `Sequences`, `Sorting`, `Sums`,
  `Decimals` and `ByteStrings` are shared.

Three behaviours of the code differ from what one would expect of it, and the project says exactly
when, each with a concrete input:

* The attention pass checks its generated names against names on nodes and initializers only. A
  graph input that no node touches may carry a generated name; a supported graph is rewritten right
  exactly when none does (a constant's name at the constant's value aside) and the axes of the next
  item are non-empty (`PassPreservesMeaning`, `StrayInputBreaks`). The gather pass checks inputs,
  outputs and annotations too.
* The global reduction is lowered through a Reshape whose target may contain 0; it is right exactly
  when batch and feature axes are non-empty (`GlobalReduction`, `NoFeatures`). The Core ML trace's own
  replacement of the same equation is right on every extent (`TraceAgrees`).
* The gather pass edits nodes in place before it meets a node it refuses. A refusal leaves the model
  as it was exactly when no node before that one is rewritten, and otherwise a graph that no
  environment of the original's names evaluates (`ExplicitLastIndexGathers`, `RefusalChanges`,
  `RefusedUnusable`, `RefusalLeavesEdit`). The attention pass leaves a refused model as it was.

A write beyond a staged file's limit is stored before the registry broker halts on it, and a publish
that gives `expected_absent` as false is refused on an absent name and halts on a present one; both
are modelled as they are.

Parameters stand for what the code gets from outside: the inferred ranks of the attention pass (a
theorem that needs them sound says so), the digest, `int()` in the repacker (it reads decimal
numerals back), the listing of a set when a registry is packed, networks and the square root.

## Model

| member | source | states |
|---|---|---|
| `AttentionPass.PassPreservesMeaning` | scripts/export_mossformer2_separator.py:151-242 | for every supported graph and environment in which the graph evaluates, with sound ranks and no colliding name: the rewritten graph evaluates and gives every original name its original value if and only if no input carries a temporary's name or, at another value, a constant's name, and every global reduction sees non-empty batch and feature axes |
| `AttentionPass.RewritingPreserves` | scripts/export_mossformer2_separator.py:171-241 | by induction over the nodes, for any starting environment that holds the constants and none of the temporaries: the rewritten nodes run with every original value exactly when the global reductions see non-empty axes, and the names bound are the original ones and the temporaries |
| `AttentionPass.LoweredNode` | scripts/export_mossformer2_separator.py:175-238 | one Einsum that evaluates: its lowering, run where the operands are bound, extends the Einsum's own result exactly when a global reduction's axes are non-empty, and binds its temporaries and the output only |
| `StrayInput.StrayInputBreaks` | scripts/export_mossformer2_separator.py:182-195 | one Einsum and an unread input named like the first intermediate: the graph evaluates, the pass accepts it, and the rewritten graph does not evaluate as the original |
| `AttentionRewriter.Model.ExplicitAttentionContractions` | scripts/export_mossformer2_separator.py:151-242 | the pass in place succeeds exactly on graphs whose Einsums all have a supported signature, equation and ranks and whose generated names are free; then nodes and initializers are the specified rewriting, no Einsum is left and the count is the number of Einsums; a refusal changes nothing |
| `AttentionRewriter.LowerEinsum` | scripts/export_mossformer2_separator.py:175-238 | one node of the loop: succeeds exactly when the node is supported and its names are free, and appends exactly its lowering, constants and names |
| `AttentionRewriter.Rewriter.Contract` | scripts/export_mossformer2_separator.py:214-237 | the dispatch on the equation: the emitted nodes and constants are the lowering of that equation at the current counters, or nothing is claimed beyond a colliding name |
| `AttentionRewriter.RewrittenPlain` | scripts/export_mossformer2_separator.py:214-242 | the rewritten nodes contain no Einsum and the reported count is the number of Einsums |
| `AttentionCoverage.CoversValues` | scripts/export_mossformer2_separator.py:175-237 | a node with the text of one of the seven equations, and a value on operands of known ranks, is one the pass supports: the ranks it insists on are no more than the equation's own |
| `AttentionCoverage.Recognised` | scripts/export_mossformer2_separator.py:214-237 | an equation is taken for one of the seven exactly when it is that one's text |
| `AttentionCoverage.StripSpace` | scripts/export_mossformer2_separator.py:178 | a space anywhere in an equation makes no difference, and without spaces the text is kept |
| `AttentionCoverage.InitializersKnown` | scripts/export_mossformer2_separator.py:164-167 | the rank of every initializer is known and is its own; all other ranks are the inferred ones |
| `GeneratedNames.CollisionsAreForeign` | scripts/export_mossformer2_separator.py:182-195 | generated names never repeat each other, so claiming them fails exactly when one of them was already a name of the graph |
| `AttentionLowering.LoweringComputes` | scripts/export_mossformer2_separator.py:214-237 | each of the seven lowerings, run where its operands, constants and free names are, binds the output to the value of the equation it replaces; the global reduction's does so exactly when its batch and feature axes are non-empty |
| `Contractions.ScaleFeatures` | scripts/export_mossformer2_separator.py:214-215 | '...,f->...f' on all shapes is the elementwise product with an axis appended to the left operand |
| `Contractions.ScaleHeads` | scripts/export_mossformer2_separator.py:216-219 | '...d,hd->...hd' is the elementwise product after an axis before the last |
| `Contractions.ScalePositions` | scripts/export_mossformer2_separator.py:220-223 | 'i,j->ij' is the elementwise product of a column and a row |
| `SequenceContractions.Scores` | scripts/export_mossformer2_separator.py:224-225 | '...id,...jd->...ij' is a matrix product with the last two axes of the right operand exchanged |
| `Contractions.WeightedValues` | scripts/export_mossformer2_separator.py:226-227 | '...ij,...jd->...id' is the matrix product of the operands |
| `GlobalContraction.GlobalReduction` | scripts/export_mossformer2_separator.py:228-231 | the Reshape-based lowering of 'bgnd,bgne->bde' has the equation's value exactly when the batch and both feature axes are non-empty: on an empty axis the reshape target's 0 and -1 mean something else |
| `GlobalContraction.GlobalTaken` | scripts/export_mossformer2_separator.py:228-231 | 'bgnd,bgne->bde' has a value exactly on two operands of rank four, one element type and equal batch, group and frame extents, empty ones included |
| `GlobalContraction.NoFeatures` | scripts/export_mossformer2_separator.py:228-231 | two such operands, one without features, whose value the lowering does not compute |
| `SequenceContractions.SharedMatrix` | scripts/export_mossformer2_separator.py:232-235 | 'bgnd,bde->bgne' is a matrix product broadcast over the groups |
| `Sums.SumFlattened` | scripts/export_mossformer2_separator.py:228-231 | one sum over a flattened pair of axes is the double sum over the pair |
| `GatherPass.GatherPassPreserves` | scripts/export_mossformer2_separator.py:107-148 | in a graph that binds every name once, with generated names free and -1s at every index operand the pass takes for -1s (initializers that keep their values, or inputs that override them with -1s): the rewritten nodes evaluate exactly when the original ones do, and then every original name keeps its value |
| `GatherPass.LastIndexEquivalent` | scripts/export_mossformer2_separator.py:130-145 | the four nodes run exactly when the Gather they replace does, also on empty axes and bad operands, and bind its results to its values |
| `GatherPass.LastGathered` | scripts/export_mossformer2_separator.py:133-143 | gathering at extent minus one is gathering at -1, and both fail exactly on an empty first axis |
| `GatherPass.KnownAgrees` | scripts/export_mossformer2_separator.py:119-123 | under single assignment the constant the pass looks up is the value the name is bound to |
| `GatherRewriter.Model.Constants` | scripts/export_mossformer2_separator.py:119-123 | the table of constants is the initializers overridden by Constant nodes in order, or a refusal when a Constant has no output |
| `GatherRewriter.Model.ExplicitLastIndexGathers` | scripts/export_mossformer2_separator.py:107-148 | succeeds exactly when every Gather has an index operand and all generated names are free of node, initializer, input, output and annotation names; then the count is the number of axis-0 Gathers whose known int64 index operand has an element and -1 at every index, of any shape; each of them reads an index computed in front of it, every other node stands unchanged in its place, and no such Gather is left, by the old or the new constants; a Constant without an output changes nothing; any other refusal is at the first node that lacks an index operand or whose next generated names are taken, and leaves the nodes before it edited in place and their constants added |
| `GatherCensus.RewritableMeans` | scripts/export_mossformer2_separator.py:128-134 | the test on the constant's data is the test on its elements by index, for any shape |
| `GatherCensus.RewritesExactly` | scripts/export_mossformer2_separator.py:124-148 | the result node by node: those Gathers replaced by four nodes, every other node in place, and the count of them |
| `GatherCensus.NoneLeft` | scripts/export_mossformer2_separator.py:124-148 | no node of the result is such a Gather, by the constants looked up before or by those of the result |
| `GatherRewriter.StopsOnce` | scripts/export_mossformer2_separator.py:125-137 | the node at which the pass refuses, and the reason, are unique |
| `GatherRewriter.RefusalChanges` | scripts/export_mossformer2_separator.py:125-145 | a refused pass leaves nodes and initializers as they were if and only if no node before the refused one is a Gather it rewrites |
| `GatherRewriter.RefusedUnusable` | scripts/export_mossformer2_separator.py:125-147 | the graph left behind, with the constants added so far, evaluates as before when no node before the refused one is rewritten, and otherwise in no environment of names the pass holds occupied |
| `GatherRewriter.RefusalLeavesEdit` | scripts/export_mossformer2_separator.py:136-145 | two such Gathers, the second one's first name taken: the pass is refused there with nodes and initializers changed |
| `CoreMlAdapters.TraceAgrees` | scripts/export_coreml_separator.py:80-88 | the five matrix-product replacements have the value of the equations they replace on all extents, empty axes included, and for ellipses of different ranks, which torch.einsum broadcasts |
| `CoreMlAdapters.PositivePadAgrees` | scripts/export_coreml_separator.py:89-102 | the replacement pads like the constant padding it replaces for all sizes, except exactly the crop-and-shift along an empty axis |
| `CoreMlAdapters.CroppedShifted` | scripts/export_coreml_separator.py:97-101 | cropping the last entry and shifting by one equals padding (1, -1) exactly when the axis is not empty |
| `CoreMlAdapters.TailJoined` | scripts/export_coreml_separator.py:90-96 | concatenating a constant tail equals padding on the right |
| `GroupNorms.GroupNormsAgree` | scripts/export_coreml_separator.py:41-48 | group norm with means over time and then channels equals group norm with one flattened mean, for every tensor, group count, epsilon and root |
| `GroupNorms.GroupNormAt` | scripts/export_coreml_separator.py:41-48 | every element is the element less the mean, over the root of the variance and epsilon, of the elements of its batch entry in its own group of channels, all by tensor index |
| `GroupNorms.NormsAgree` | scripts/export_mossformer2_separator.py:48-52 | one group: the flattened centred statistics equal the two-stage ones |
| `EditDistance.FewestEdits` | scripts/score_speaker_aware.py:16-23 | the distance is reached by some list of single-word insertions, deletions and substitutions, and no list turning one word list into the other is shorter |
| `EditDistance.EntryLeast` | scripts/score_speaker_aware.py:16-23 | no alignment of two prefixes costs less than the tabulated entry |
| `EditDistance.EntryReached` | scripts/score_speaker_aware.py:16-23 | some alignment of two prefixes costs exactly the tabulated entry |
| `EditDistance.Symmetric` | scripts/score_speaker_aware.py:16-23 | the distance is symmetric |
| `EditDistance.Triangle` | scripts/score_speaker_aware.py:16-23 | the distance obeys the triangle inequality |
| `EditDistance.Bounds` | scripts/score_speaker_aware.py:16-23 | it lies between the difference of the lengths and the longer length, and is zero exactly for equal lists |
| `EditDistance.ScorerDistance` | scripts/score_speaker_aware.py:16-23 | the rolling-row loop returns the distance |
| `EditDistance.CompositionDistance` | scripts/prove_nemotron_composition.py:92-99 | this independent loop returns the same distance |
| `EditDistance.ProbeWordError` | scripts/probe_linux_acoustic_stt.py:18-37 | the probe's loop returns the same distance with the reference length and their ratio, and fails exactly on an empty reference |
| `Matching.LeastPadded` | scripts/score_speaker_aware.py:45-47 | an element added to both sides leaves the least cost over all bijections unchanged, under any metric |
| `Matching.LeastTriangle` | scripts/score_speaker_aware.py:48-53 | least costs over bijections of multisets obey the triangle inequality |
| `Matching.LeastSymmetric` | scripts/score_speaker_aware.py:48-53 | least costs over bijections are symmetric |
| `Matching.LeastZero` | scripts/score_speaker_aware.py:48-53 | the least cost is zero exactly for equal multisets |
| `SpeakerTotals.TotalPadded` | scripts/score_speaker_aware.py:45-47 | padding both sides further with empty streams gives the same total |
| `SpeakerTotals.TotalOrderBlind` | scripts/score_speaker_aware.py:41-62 | the total ignores the order of the streams on both sides |
| `SpeakerTotals.TotalSymmetric` | scripts/score_speaker_aware.py:41-62 | the total is symmetric |
| `SpeakerTotals.TotalTriangle` | scripts/score_speaker_aware.py:41-62 | the total obeys the triangle inequality across three sets of streams of any sizes |
| `SpeakerTotals.TotalZero` | scripts/score_speaker_aware.py:41-62 | the total is zero exactly when both sides hold the same non-empty streams equally often |
| `SpeakerTotals.TotalIgnoresEmpty` | scripts/prove_nemotron_composition.py:207-214 | empty streams kept on either side do not change the total |
| `SpeakerTotals.ChosenLeast` | scripts/score_speaker_aware.py:48-53 | the order the enumeration chooses reaches the least cost over all bijections |
| `SpeakerTotals.TotalExists` | scripts/score_speaker_aware.py:45-53 | every two lists of streams have exactly one total |
| `Orders.Enumerated` | scripts/score_speaker_aware.py:49 | the enumeration lists exactly the permutations of the indices |
| `Orders.PermutationsListed` | scripts/score_speaker_aware.py:49 | the enumeration is in strictly increasing lexicographic order |
| `Orders.ChosenUnique` | scripts/score_speaker_aware.py:50-53 | cheapest and, among those, lexicographically first names one order |
| `Orders.FirstLeastChosen` | scripts/prove_nemotron_composition.py:216 | the first order of least sum in the enumeration is that same order |
| `SpeakerScore.SortedRows` | scripts/score_speaker_aware.py:28 | sorting keeps exactly the rows and puts them in the order of the comparison |
| `SpeakerScore.SortedChronological` | scripts/score_speaker_aware.py:28 | acceptable rows come out by start in seconds, by end at equal starts, and rows of one extent in the order they were given |
| `SpeakerScore.OneOrder` | scripts/score_speaker_aware.py:28 | only one list of the rows is in that order |
| `SpeakerScore.FileOrderIrrelevant` | scripts/score_speaker_aware.py:28 | rows with pairwise different extents sort to one list whatever order they are given in |
| `SpeakerScore.StreamsCollected` | scripts/score_speaker_aware.py:26-38 | over any list of the rows in the order of seconds, rows of one extent as they were given: each speaker with words has one stream, holding exactly that speaker's words in that order; no stream is empty and they stand in order of first appearance |
| `SpeakerScore.WordsJoined` | scripts/score_speaker_aware.py:37 | a speaker's words over consecutive lists of rows follow each other |
| `SpeakerScore.CollectStreams` | scripts/score_speaker_aware.py:26-38 | succeeds exactly when every row is acceptable and then returns those streams |
| `SpeakerScore.BestOrder` | scripts/score_speaker_aware.py:48-53 | the loop over all permutations returns the cheapest order, lexicographically first among equals, with its errors |
| `SpeakerScore.ScoreStreams` | scripts/score_speaker_aware.py:45-62 | totals, per-speaker lines, error sums, word counts and rate of the report for any two sets of streams with a reference word |
| `SpeakerScore.Score` | scripts/score_speaker_aware.py:41-62 | refuses exactly unacceptable rows or fewer than 1, more than 4 reference or more than 4 hypothesis streams; otherwise the errors are the least over all bijections and the sum of the lines' errors |
| `Composition.Assign` | scripts/prove_nemotron_composition.py:212-221 | the matrix-based assignment finds the cheapest order, the least total, the rate and the largest per-speaker rate; it fails exactly without reference words or with a silent reference speaker |
| `Composition.ScorersAgree` | scripts/prove_nemotron_composition.py:212-221 | both scorers give the same errors, words, rate and assignment on the same streams |
| `IdentityEvaluation.Evaluate` | scripts/score_identity_attribution.py:7-65 | every run ends in the outcome the relation prescribes: the first failing check's refusal, a verdict without rows for a wrong track count or a tied minimum, or the graded rows of the one cheapest matching |
| `IdentityEvaluation.JoinFinals` | scripts/score_identity_attribution.py:17-22 | joins succeed exactly on finals with tracks, words and distinct keys |
| `IdentityEvaluation.JoinObservations` | scripts/score_identity_attribution.py:23-27 | joins fail exactly on an observation of no final, and collect each final's observations in order |
| `IdentityEvaluation.TieMeans` | scripts/score_identity_attribution.py:36-40 | the two best ranked assignments tie exactly when no matching is strictly cheapest |
| `IdentityEvaluation.Rows` | scripts/score_identity_attribution.py:41-58 | rows exist exactly when every observation is readable, one for each assigned pair |
| `IdentityVerdict.OrderIrrelevant` | scripts/score_identity_attribution.py:7-65 | reordering finals, observations and reference speakers changes no refusal and no verdict, and only the order of the rows |
| `VerdictMeaning.PassMeans` | scripts/score_identity_attribution.py:55-62 | an attribution passes if and only if in the one cheapest matching every final reports nobody, or the speaker's expected identity with no other speaker's adjacent words and errors within the limit |
| `VerdictMeaning.TextMeans` | scripts/score_identity_attribution.py:60-63 | the text passes if and only if the errors of the one cheapest matching, and of each of its pairs, are within their limits |
| `VerdictMeaning.RowsMean` | scripts/score_identity_attribution.py:41-59 | each field of each row: rate, abstention, right identity, foreign phrase as adjacent words of another speaker that the speaker never says, and passing |
| `IdentityVerdict.EverySpeakerCounted` | scripts/score_identity_attribution.py:62-65 | when graded, resolved plus abstained is the number of reference speakers |
| `RegistryBroker.Broker.Answer` | scripts/speaker_registry_test_host.py:57-99 | the new storage, the reply and the recorded calls of one request, halts included, equal the specified response |
| `RegistryBroker.StepRefines` | scripts/speaker_registry_test_host.py:57-99 | every request is one step of a compare-and-swap store of published names; a refused request changes nothing |
| `RegistryBroker.PublishMeans` | scripts/speaker_registry_test_host.py:84-96 | a successful publish moves the staged bytes, which have the digest given, to a name that was absent or held bytes of the digest named |
| `RegistryBroker.Frame` | scripts/speaker_registry_test_host.py:57-99 | a request leaves every name it does not write or publish unchanged |
| `RegistryBroker.RunRefines` | scripts/speaker_registry_test_host.py:57-113 | any sequence of requests of any clients, up to a halt, is a run of the compare-and-swap store |
| `RegistryBroker.SecondPublish` | scripts/speaker_registry_test_host.py:84-96 | under an injective digest a second publish naming the same predecessor needs a publish in between that restored the predecessor's bytes |
| `RegistryBroker.RecoveriesKept` | scripts/speaker_registry_test_host.py:36-44 | over every run each recovery file keeps bytes of the digest in its name |
| `BrokerReplies.ReadMeans` | scripts/speaker_registry_test_host.py:65-76 | when a read succeeds, finds nothing or halts; its page is the file's bytes from the offset, 65536 or all that is left, with the size, the end flag and, if asked for, the file's digest |
| `BrokerReplies.WriteMeans` | scripts/speaker_registry_test_host.py:77-83 | a write replaces or appends byte by byte; beyond the limit the bytes are stored and the broker halts; a malformed write stores nothing |
| `BrokerReplies.MovedMeans` | scripts/speaker_registry_test_host.py:84-96 | a publish moves the staged bytes and reports their size and digest, and whether the name was there before |
| `BrokerReplies.PublishDecided` | scripts/speaker_registry_test_host.py:84-93 | a well-formed publish succeeds, is refused or halts exactly by what its predecessor is and which one it names |
| `RegistryNames.PendingParts` | scripts/speaker_registry_test_host.py:42-44 | the staged-name match is exactly prefix, 64 hexadecimal digits and suffix |
| `CasStore.Untouched` | scripts/speaker_registry_test_host.py:84-96 | published bytes change only by a publish of their name |
| `CasStore.SecondNeedsReturn` | scripts/speaker_registry_test_host.py:84-96 | in any run of the store a predecessor is named successfully again only after it was put back |
| `CasStore.FirstOnlyOnce` | scripts/speaker_registry_test_host.py:88-90 | a name that was published cannot later be published as absent |
| `RegistryPaging.UploadStages` | scripts/speaker_registry_test_host.py:77-83 | an uninterrupted upload leaves the concatenation of its pages staged, whatever others do to other names |
| `RegistryPaging.UploadRuns` | scripts/speaker_registry_test_host.py:77-83 | the uploading client's own writes never halt the broker within the size limit |
| `RegistryPaging.DownloadEnds` | scripts/speaker_registry_test_host.py:65-76 | reading page after page, whatever others ask of other names before each read: exactly the remaining bytes in the number of reads that takes, as long as that many reads are made and the broker survives those requests; interrupted otherwise |
| `RegistryPaging.RoundTrip` | scripts/speaker_registry_test_host.py:65-95 | upload in pages, publish, read until the end, with arbitrary interference on other names: when the broker survives the upload and what precedes the publish, and the predecessor is as named, the publish succeeds and the reading returns exactly the uploaded bytes, in one read for every started 65536, if and only if that many are made and the broker survives what precedes them |
| `PrivateBroker.Broker.Serve` | scripts/private_store_broker.py:22-56 | the new files, the reply and the recorded calls of one request equal the specified response |
| `PrivateBroker.StepRefines` | scripts/private_store_broker.py:27-55 | every request is one step of the same compare-and-swap store; neither a refusal nor a halt changes a file |
| `PrivateBroker.PublishMeans` | scripts/private_store_broker.py:44-54 | a successful publish moves staged bytes of the digest given to a name at the predecessor named, with the conflict switch off |
| `PrivateBroker.RunRefines` | scripts/private_store_broker.py:17-60 | any sequence of requests under any switch settings is a run of the store |
| `PrivateBroker.SecondPublish` | scripts/private_store_broker.py:44-54 | a second publish naming the same predecessor needs one in between that put its bytes back |
| `PrivatePaging.ReadMeans` | scripts/private_store_broker.py:30-38 | when a read succeeds, finds nothing or halts; its page is the file's bytes from the offset, as many as asked for or all that is left, counted from the end for a negative length |
| `PrivatePaging.WriteMeans` | scripts/private_store_broker.py:39-43 | a write replaces or appends byte by byte and a malformed one halts without a change |
| `PrivatePaging.RoundTrip` | scripts/private_store_broker.py:31-54 | after an upload in pages and a publish every page read is that part of what was uploaded, whatever is served for other names in between |
| `Repacking.RepackGraph` | scripts/compact_multitalker_graphs.py:71-127 | succeeds exactly for a bound from one byte to 512 MiB and a graph whose external tensors are all found and fit it, and then returns the specified graph, files and counts: the re-read never refuses |
| `RepackPromise.RepackKeeps` | scripts/compact_multitalker_graphs.py:71-127 | at every path of child positions both trees have the same message, and where it is a tensor the same tensor, an external one reading its own bytes from the new files; putting the old entries back gives the original graph; the extents written are the packing's in order, each once, never overlap and tile the files in order, no file exceeds the bound, neighbours together do, and half the files times the bound is less than the bytes |
| `RepackPromise.EachExternalOnce` | scripts/compact_multitalker_graphs.py:80-103 | the reported number of tensors is the number of paths that end in an external tensor |
| `RepackPromise.SliceRead` | scripts/compact_multitalker_graphs.py:35-53 | a tensor that names its file, its offset (or none for the start) and its length (or none for the rest), in any order of entries, reads that slice |
| `Repacking.MovedLocated` | scripts/compact_multitalker_graphs.py:82-102 | the extent written into the i-th external tensor is the packing's extent for it |
| `Repacking.RecheckAccepts` | scripts/compact_multitalker_graphs.py:107-127 | the final comparison accepts every graph the packing loop produces |
| `Repacking.BytesKept` | scripts/compact_multitalker_graphs.py:35-53 | a moved tensor keeps its flag, its other fields and its bytes; an inline one is unchanged |
| `Repacking.Recheck` | scripts/compact_multitalker_graphs.py:107-127 | the re-read accepts exactly equal inline tensors, external bytes of the recorded length and digest, and a graph equal once entries are put back |
| `Repacking.Packer.Take` | scripts/compact_multitalker_graphs.py:82-102 | one tensor: refused exactly when it is malformed or too large, otherwise carried to its next-fit extent |
| `Repacking.Transfer` | scripts/compact_multitalker_graphs.py:56-68 | the copying loop returns exactly the extent |
| `WeightFiles.PackHolds` | scripts/compact_multitalker_graphs.py:82-102 | each tensor is found again at its extent |
| `WeightFiles.PackTiles` | scripts/compact_multitalker_graphs.py:82-102 | the files in order hold the tensors' bytes in order and nothing else |
| `WeightFiles.PackTiled` | scripts/compact_multitalker_graphs.py:82-102 | each extent starts where its predecessor ends, or opens the next file after its predecessor fills its own |
| `WeightFiles.TiledApart` | scripts/compact_multitalker_graphs.py:82-102 | tiled extents never overlap: of any two the earlier ends where or before the later begins, or lies in an earlier file |
| `WeightFiles.PackTight` | scripts/compact_multitalker_graphs.py:89-95 | no file is empty or exceeds the bound, and any two neighbours together exceed it |
| `WeightFiles.FileCount` | scripts/compact_multitalker_graphs.py:89-95 | half the number of files times the bound is less than the bytes packed |
| `WeightFiles.NamesDiffer` | scripts/compact_multitalker_graphs.py:92-94 | file names of different numbers differ, so opening exclusively never fails |
| `MessagePaths.VisitsAll` | scripts/compact_multitalker_graphs.py:20-32 | the tensors visited are those at the end of every path of child positions, each once and in the order of the paths |
| `MessagePaths.ReplacedAt` | scripts/compact_multitalker_graphs.py:20-32 | at every such path the tree with replaced tensors has that tensor's replacement |
| `GraphMessages.ReplacedTensors` | scripts/compact_multitalker_graphs.py:20-32 | the tensors visited in a tree with replaced tensors are the replacements, in order |
| `GraphMessages.ReplacedTwice` | scripts/compact_multitalker_graphs.py:111-125 | putting tensors back into a rewritten tree is putting them into the original |
| `Authenticode.SigningOnlyChange` | scripts/rebind_signed_windows_runtime.py:30-69 | the patched-buffer comparison and the certificate loop return the specified verdict; the walk terminates |
| `PeImages.AcceptsExactly` | scripts/rebind_signed_windows_runtime.py:30-69 | a pair is accepted if and only if the one is an unsigned image written out field by field and the other the same image with another checksum and a security entry for the records, zeros to a multiple of eight and a non-empty table of type-2 revision 0x200 records |
| `PeImages.BuiltLayout` | scripts/rebind_signed_windows_runtime.py:36-49 | in an image of named fields, PE32 or PE32+, the check finds the checksum behind the fields before it and the security entry behind the four directories |
| `PeImages.ImageBuilt` | scripts/rebind_signed_windows_runtime.py:36-49 | every file in which the check finds a layout is such an image |
| `Authenticode.OriginalDetermined` | scripts/rebind_signed_windows_runtime.py:50-59 | two originals of one accepted file differ only in the checksum and at most seven trailing zero bytes |
| `Authenticode.TableWalks` | scripts/rebind_signed_windows_runtime.py:60-69 | the walk accepts every encoded table from any multiple of eight |
| `Authenticode.WalkTiles` | scripts/rebind_signed_windows_runtime.py:60-69 | whatever the walk accepts tiles into records to the end of the file |
| `Authenticode.LayoutKept` | scripts/rebind_signed_windows_runtime.py:36-49 | the header is found in the same places in every file that differs only in the two fields and beyond the original |
| `Snapshot.Census` | runtime/model_assets.py:208-236 | the worklist terminates and accepts exactly the trees that pass |
| `Snapshot.PassesExactly` | runtime/model_assets.py:208-236 | passing is being the exact tree: the expected files at the expected sizes, exactly their parents as directories, nothing else |
| `Snapshot.OrderIrrelevant` | runtime/model_assets.py:219-234 | two listings of one tree, their entries matched in any order at every level, pass alike and are exact alike |
| `Snapshot.CleanMeans` | runtime/model_assets.py:219-234 | no entry is refused exactly when all files are expected at their sizes, all directories are allowed and nothing is special |
| `Snapshot.ParentsMean` | runtime/model_assets.py:208-218 | the allowed parents of a path joined from components are the paths of its first components, nested ones included |
| `Catalog.CheckCatalog` | runtime/model_assets.py:147-206 | the incremental checks accept exactly catalogs of safe names whose directories and whose destinations are pairwise apart and within the file bound |
| `Catalog.Antichain` | runtime/model_assets.py:194-203 | no accepted destination is, in components and up to case, a prefix of another |
| `Catalog.WithinParts` | runtime/model_assets.py:155-163 | the string test with a slash is the component prefix |
| `Catalog.GroupsApart` | runtime/model_assets.py:155-164 | with group directories apart, destinations of different groups cannot collide |
| `Catalog.OnlyWithinGroups` | runtime/model_assets.py:194-203 | so names apart within each group suffice |
| `Halting.TimelineLoop` | models/turn_controller.py:271-292 | the loop over the whole sequence computes the mixture and expected depth of its candidates' halting weights |
| `Halting.PooledLoop` | models/turn_controller.py:314-333 | the loop over the pooled state computes the same functions of its own candidates, so equal probabilities give equal weights |
| `Halting.WeightsSumToOne` | models/turn_controller.py:276-292 | the weights sum to one for every pass count and probability sequence |
| `Halting.WeightPositive` | models/turn_controller.py:276-292 | every weight is positive |
| `Halting.ConvexCombination` | models/turn_controller.py:290-292 | each component of the result lies between any bounds on the candidates' components |
| `Halting.ExpectedDepth` | models/turn_controller.py:290-292 | the expected depth is the sum of the masses the passes start with, and lies between one and the passes |
| `Halting.RemainingBounds` | models/turn_controller.py:284-289 | for an epsilon of at most a half the mass after k passes lies between epsilon and one minus epsilon to the k |
| `Halting.ClippedProper` | models/turn_controller.py:284-288 | clipping puts every probability strictly between zero and one, for every valid epsilon, and within epsilon of neither end up to a half |
| `Halting.ClippedKept` | models/turn_controller.py:284-288 | a probability within the bounds is kept, one outside is the nearer bound |
| `ThresholdChoice.Evaluate` | scripts/audit_uid_profile_pooling.py:19-49 | the counting loop returns the tally of the queries at a threshold |
| `ThresholdChoice.TallyCounts` | scripts/audit_uid_profile_pooling.py:19-49 | each field of the tally is the number of queries that come out so |
| `ThresholdChoice.KnownSplit` | scripts/audit_uid_novelty.py:56-85 | correct, wrong and rejected sum to the known queries |
| `ThresholdChoice.Antitone` | scripts/audit_uid_novelty.py:46-60 | accept counts fall as the threshold rises, and correct counts agree only for the very same queries |
| `ThresholdChoice.SafeUpward` | scripts/audit_uid_novelty.py:123-127 | every threshold above a safe one is safe |
| `ThresholdChoice.Choose` | scripts/audit_uid_profile_pooling.py:52-61 | the loop returns the safe threshold with most correct queries, the largest among equals |
| `ThresholdChoice.ChoiceMeans` | scripts/audit_uid_novelty.py:123-130 | the choice is the largest threshold accepting exactly the correct queries of the smallest safe one; none exists exactly when no threshold is safe |
| `ThresholdChoice.LeadMeans` | scripts/audit_uid_novelty.py:39-43 | the score is the best similarity in the gallery, its owner the smallest among equals, and the lead its distance to the best other match |
| `ThresholdChoice.AcceptedMeans` | scripts/audit_uid_novelty.py:39-48 | a query is accepted exactly when some match reaches the threshold and every other match lies at least the margin, and something, below it |
| `FrozenRegistry.RoundTrip` | runtime/frozen_transformers_imports.py:16-63 | unpacking a packed registry gives it back in the same enumeration order, however sets are listed |
| `FrozenRegistry.PackInjective` | runtime/frozen_transformers_imports.py:16-30 | different registries pack differently |
| `FrozenRegistry.UnpackedProper` | runtime/frozen_transformers_imports.py:33-63 | whatever unpacks, a key given as an object of two keys included, has distinct keys all the way down and can be packed |
| `FrozenRegistry.SubtreeInside` | runtime/frozen_transformers_imports.py:147-154 | replaying a path continued by another is replaying the other inside the subtree |
| `FrozenRegistry.SubtreeMeans` | runtime/frozen_transformers_imports.py:147-154 | a subtree is what the path leads to, component by component, through dictionary items with those keys, wherever they stand |
| `FrozenRegistry.Replay` | runtime/frozen_transformers_imports.py:147-156 | the loop over the path returns that subtree, or refuses at a missing or non-dictionary part |
| `FrozenRegistry.SealedReplay` | runtime/frozen_transformers_imports.py:134-156 | replaying from the sealed lists is replaying from the registry |
| `RiffWave.DecodeIeeeFloat` | scripts/audio_contract.py:50-92 | the chunk loop stays in bounds, terminates and returns the specified result |
| `RiffWave.DecodesChunks` | scripts/audio_contract.py:59-79 | decoding a serialised file is scanning its chunks, whatever follows the declared size |
| `RiffWave.AnyOrder` | scripts/audio_contract.py:50-92 | with one format chunk, written as its six fields, and one data chunk anywhere among others the decoder returns that rate and payload exactly when the format is consistent and the payload frame-aligned |
| `RiffWave.FormatRead` | scripts/audio_contract.py:66-73 | the six fields of a format body are read in file order, whatever extension follows |

## Left out

- Floating point: tensors, scores, rates and probabilities are reals, and 64-bit integers are exact.
- Graph attributes the passes do not read, subgraphs inside nodes, element types other than floating and 64-bit integer, and the shape inference itself; a lowering may also accept operands of sizes its Einsum would reject.
- AttentionPass.PassPreservesMeaning: a generated constant that an input names too is taken at the constant's value, where an ONNX runtime takes the input's; the two agree whenever `InputsClear` holds, so this bears only on the converse.
- GatherPass.GatherPassPreserves: asks for -1s at the rewritten index operands; an input that overrides such an initializer with other indices is not decided.
- CoreMlAdapters.PositivePadAgrees: constant padding only, for sizes in pairs and no more pairs than axes.
- The affine scale and shift after group norm, the convolution and offset-scale adapters and the traversal that installs all adapters; they act on equal values.
- Tokenising text into words, the gate comparisons of the scorers' `evaluate`, and the reports' file formats.
- SpeakerScore.CollectStreams: one refusal stands for all invalid rows; which of several is met first is not told apart.
- IdentityEvaluation.Evaluate: takes the reference as a list of distinct speakers in mapping order.
- Threads, queues, sockets and the `hold` and `entered` events of the brokers, request identifiers and base64; a request's data are bytes or invalid.
- Directories as paths: the repacker's directories map the locations they contain to bytes, so links, escapes and missing files are one refusal, and a tensor file changing between reads is not modelled.
- Repacking.RepackGraph: rebuilds the message tree with the rewritten tensors where the code edits a copy in place, takes saving and loading the model file to be faithful, and does not say what files a refused run leaves behind.
- Signature verification and the rest of the Windows rebinding; only the content check is modelled.
- Catalog.CheckCatalog: covers names, directories, destinations and the file bound, not roles, manifests, digests, data formats or sizes.
- Snapshot.Census: covers the traversal; the hash pass after it and links changing underneath are left out.
- Halting.PooledLoop: one row of a batch, with candidates and probabilities from function parameters; the other depth modes are straight-line code.
- The pair counts, adaptation and profile rules of the threshold audits, and how vectors become similarities.
- FrozenRegistry.RoundTrip: packing's input has string and string-set keys; a listing of sets is any that has each element once, of which sorting is one.
- Caching, path identities and the fallback to the original generator in the registry replay.
- RiffWave.DecodeIeeeFloat: returns the payload bytes; turning frames into samples and the PCM formats are left out.
- Release assembly, catalog and checkpoint scripts and resource limits, whose checks are memberships and linear inequalities.
