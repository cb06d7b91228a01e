# Graph Cache, modelled and verified in Dafny

Graph Cache decides when a captured execution graph may be reused. This project
models the parts of it where that decision is made and carried through, and
proves what they promise, for all inputs and all runs:

- **Topology and execution.** Kahn validation, canonical encoding, the
  deterministic capture order and replay over buffers that may overlap. The
  central result is `HitSoundness.HitSoundness`: what a request is accepted
  against replays what the request's own graph would have done.
- **Facts, keys and decisions.** The typed field encoding, facts with their
  strict decoder, the compatibility decision, stored descriptors and metadata,
  the persistence envelope, and recovery.
- **The cache engine.** Indices, generations, single-flight capture, leases and
  invalidation: once as an object whose methods update its indices
  (`GraphCache`), once as a machine whose threads interleave freely
  (`CacheEngine`, `EngineInvariant`, `EngineRuns`), with its store and
  restarts from it (`CacheStore`, `EngineStore`). There the central result is
  `EngineHits.LeaseReplaysOwnRequest`: in every run each lease that was
  asked for with exact topology gives its holder an executable that replays as
  its own graph.
- **The coordinator and its workers.** Messages, framing, and every run in which
  the network may duplicate, reorder or lose messages (`Coordinator*`).
- **SHA-256**, streaming against its definition in FIPS 180-4, whose functions are
  said bit by bit, whose constants come from the primes, and whose digest of one
  message is the standard's.

Integers are unbounded, with wrap-around and truncation written out where the
code has them. Strings are byte strings, enumerations their 32-bit values and
doubles their 64-bit patterns. Single-precision arithmetic is a parameter of
replay. A read or write outside a buffer or file is an explicit fault.
`dafny verify dfyconfig.toml` checks the whole project.

## Where the code does not do what it should

Each of these is a lemma with the failing input; the exact condition under which
the code is right is a lemma beside it.

| what fails | shown by | right exactly when |
|---|---|---|
| scalars not marked specialised are replayed but neither encoded nor compared | `HitSoundness.UnmarkedScalarsSlipThrough` | kernels compute the same lanes: `HitSoundness.ReplayAlikeExactly` |
| a specialised NaN never matches its own capture | `Decide.SelfCompatibleExactly` | the specialised scalar the facts keep is not a NaN |
| a request that counts two versions of one dependency never hits its own capture, and is not captured again | `RequestFields.OwnCaptureIsStale`, `RequestFields.TwoVersionsClash` | it does not, keeps no NaN, and passes the namespace filter: `RequestFields.OwnCaptureServes` |
| joined dependency strings can be confused | `DependencyKeys.DependencyCheckConfused` | names do not extend one another: `DependencyKeys.DependencyCheckExactly` |
| an invalidation between the stale-capture check and the publication is missed | `EngineRace.LateInvalidationIsMissed` | no bump in between: `EngineRuns.PublisherSawNoBump` |
| `invalidate_all` misses an entry whose artifact was captured again under another key | `EngineShared.SharedArtifactSurvives` | every selectable entry is in its artifact slot: `CacheInvalidation.InvalidateAllExactly` |
| a workload can keep another one from ever being captured | `CacheRegistry.CollisionBlocksCapture`, `EngineRuns.CollidingWorkloadIsNotCaptured` | nothing selectable has the joined key: `CacheRegistry.CaptureRequiredExactly` |
| an invalidation between the recheck and the lease does not prevent the lease | `EngineLease.InvalidatedIsLeased` | no mark in between: `EngineLease.LeaseIsLiveExactly` |
| a recovered entry can refuse the request that captured it | `Recovery.ListingOrderMatters` | platform and nodes read back so as to serve it: `Recovery.RecoveredDecides` |
| a restart brings back what was invalidated | `EngineRestart.InvalidationForgotten` | the files are up to date: `EngineStore.RestartInRun` |
| a restart can bring back a superseded entry in place of the current one | `EngineRestart.SupersededReturns` | the same |
| a restart can lose one of two current entries | `EngineRestart.KeysMerge` | the same |
| a replay at the generation a hit has just reported can be refused | `CoordinatorRefusal.ReportedReplayIsRefused` | the artifact was not published again, and nothing invalidated: `CoordinatorReplay.ReplayAfterHit` |
| the envelope parser can read outside the file | `Envelope.ParseStaysInside` | the format version is not 32 |
| a worker can replay one client's graph for another's | `CoordinatorOverwrite.AnotherGraphIsReplayed` | the last capture sent to it under the artifact is of the client's canonical graph, and then exactly when the lanes agree: `CoordinatorWorker.ReplayExecutes`, `CoordinatorWorker.HitExecutesOwnGraph` |
| a replay can be forwarded to nobody | `CoordinatorTarget.ForwardedToNobody` | the worker's socket was not closed or taken since: `CoordinatorTarget.ForwardTarget` |

## Model

| member | source | states |
|---|---|---|
| `Canonical.TokenizeFlatten` | include/graphcache/canonical.hpp:105-138 | reading a written stream of fields gives back exactly those fields and no malformed marker, when every length fits 32 bits |
| `Canonical.FlattenTokenize` | include/graphcache/canonical.hpp:119-138 | a stream that is read without a malformed marker is the writing of what was read, so the encoding is a bijection onto well-formed streams |
| `Canonical.JoinCancel` | include/graphcache/canonical.hpp:105-138 | flat records whose optional parts are marked only by their tags, with no enclosing length, can be cut apart in one way only |
| `Canonical.CanonicalWriter.PutU64List` | include/graphcache/canonical.hpp:85-89 | the buffer grows by one field that holds the 32-bit count and the big-endian values |
| `Canonical.CanonicalReader.Advance` | include/graphcache/canonical.hpp:119-138 | each call delivers the next field of the stream, and it stops with the malformed marker exactly on a malformed stream |
| `IdOrder.SortOfPermutation` | src/topology.cpp:11-18 | sorting by identity gives one result for every listing of items with distinct identities |
| `IdOrder.LessIsNumber` | src/cpu_backend.cpp:116-119 | identities are ordered as the 128-bit numbers they are |
| `Topology.ValidateTopology` | src/topology.cpp:125-202 | accepts exactly the graphs with unique node ids, edge ids and endpoint pairs, no dangling edge, no self-loop and no directed cycle, in whatever order the ready queue is seeded; each refusal names a condition that really fails |
| `Topology.StuckMeansCycle` | src/topology.cpp:178-200 | a non-empty set of nodes each with a predecessor in the set contains a directed cycle, so nodes left unvisited prove one |
| `Topology.OrderedIsAcyclic` | src/topology.cpp:178-200 | a graph whose nodes can all be listed after their predecessors has no directed cycle |
| `NodeCodec.NodeCancel` | src/topology.cpp:42-110 | two node records followed by anything that can follow a node agree only if the normalised nodes and the remainders agree |
| `NodeCodec.EncodeNode` | src/topology.cpp:42-110 | the writer is appended exactly the fields of the node, each conditional field under its condition |
| `TopologyCodec.CanonicalTopologyOfPermutation` | src/topology.cpp:204-222 | the canonical bytes do not depend on the listing order of nodes and edges with unique ids |
| `TopologyCodec.CanonicalTopologyInjective` | src/topology.cpp:204-222 | equal canonical bytes imply the same sorted normalised nodes and the same sorted edges |
| `TopologyCodec.CanonicalTopologyExact` | src/topology.cpp:204-222 | canonical bytes are equal exactly when the sorted graphs agree up to the conditionally omitted fields |
| `TopologyCodec.WriteCanonicalTopology` | src/topology.cpp:204-222 | the writer loop over sorted copies produces the canonical bytes |
| `Finalize.FinalizeDescriptor` | src/topology.cpp:285-317 | succeeds exactly on valid topologies, and then leaves the sorted descriptor, named after the SHA-256 of its semantic bytes if it had no identity; otherwise the descriptor is unchanged |
| `Finalize.FinalizeForgetsListing` | src/topology.cpp:285-317 | any two listings of one graph are finalised to the same descriptor under the same artifact identity |
| `Finalize.FinalizeTwice` | src/topology.cpp:285-317 | finalising is idempotent |
| `Finalize.IdIsDigest` | src/topology.cpp:294-314 | the derived identity is the first sixteen bytes of the digest, most significant first |
| `Finalize.IdExactly` | src/topology.cpp:294-314 | so two digests give one identity exactly when their first sixteen bytes agree |
| `Finalize.SemanticExact` | src/topology.cpp:237-273 | the bytes an artifact is named after are equal exactly when topology, platform, synchronisation, dependencies, graph name and toolchain are; the workload is no part of them |
| `Finalize.UnnamedIsAnonymous` | src/topology.cpp:268-268 | a graph without a name has the identity bytes of the graph named anonymous, and of no other name |
| `Finalize.WriteSemantic` | src/topology.cpp:237-273 | the writer with its nested dependency records produces the semantic bytes |
| `CpuCapture.DeterministicOrder` | src/cpu_backend.cpp:108-131 | for a valid topology the order is a permutation of all nodes that respects every edge and at each position takes the least id whose predecessors are all emitted |
| `CpuCapture.CanonicalOrderUnique` | src/cpu_backend.cpp:108-131 | there is only one such order, and it depends on the node and edge sets alone |
| `CpuCapture.Capture` | src/cpu_backend.cpp:76-133 | fails exactly on invalid topologies; otherwise one CPU node per descriptor node and the canonical order |
| `CpuCapture.CaptureExists` | src/cpu_backend.cpp:76-133 | every valid topology has a capture |
| `CpuReplay.RunKernel` | src/cpu_backend.cpp:152-169 | the in-place loop computes lane by lane, reading what earlier lanes have written when input and output overlap; what a lane becomes is said by `ReplayMeaning.ReplayMeans` and `ReplayMeaning.KernelMeans` |
| `CpuReplay.ReplayInPlace` | src/cpu_backend.cpp:173-232 | memory, digest, node count and failure of the in-place replay are those of the replay function, for all buffers and memories; what those are is said by `ReplayMeaning.ReplayMeans` |
| `ReplayMeaning.ReplayMeans` | src/cpu_backend.cpp:173-232 | a replay of a captured graph executes its nodes in order, each leaving exactly what its category and kernel name say, with any overlap of the buffers; the digest absorbs the kernels' outputs in order, the count is of copies, sets and kernels, and it stops early exactly at a node that names a missing buffer, with memory as it was left, or that leaves memory |
| `ReplayMeaning.KernelMeans` | src/cpu_backend.cpp:46-55 | for a graph of one kernel, each output lane is x, x*a, x+a, x*b+a, x*x, or x if positive and else 0, by the kernel's name, on the same input lane, a and b being the float and integer scalars; nothing else changes, the output is digested and the count is one |
| `ReplayMeaning.LanesReadInput` | src/cpu_backend.cpp:152-169 | a kernel computes from its input as it was, unless its output begins inside the input and behind its start |
| `ReplayMeaning.OutsideIsUntouched` | src/cpu_backend.cpp:186-221 | memory that is in no node's output is as it was, at every point of a replay |
| `ReplayMeaning.MissingBufferIsRefused` | src/cpu_backend.cpp:187-210 | a graph of one node is refused, with memory as it was, exactly when it names a buffer that the caller did not supply, and faults exactly when it leaves memory |
| `SameGraph.ValidTogether` | src/topology.cpp:125-222 | graphs with the same canonical form are valid together or refused together |
| `SameGraph.SameOrder` | src/cpu_backend.cpp:108-131 | graphs with the same canonical form are captured in the same order |
| `HitSoundness.ReplayAlikeExactly` | src/cpu_backend.cpp:152-232 | on every machine, that is for every single-precision arithmetic, two graphs with equal canonical topology replay alike on all memories and buffer layouts exactly when their kernels of at least one lane compute the same result for every lane |
| `HitSoundness.ReplayAlikeWithin` | src/cpu_backend.cpp:152-232 | the same with callers that have no more buffers than the nodes refer to and twice the memory that their data takes |
| `HitSoundness.ReplayAlikeEverywhere` | src/cpu_backend.cpp:152-232 | they replay alike on every machine exactly when the scalar operands their kernels read agree |
| `HitSoundness.SameTopologyReplaysLike` | src/topology.cpp:204-222 | graphs with equal canonical bytes can stand in for each other: both are valid or neither is, on each machine they replay alike exactly when they compute the same lanes, and everywhere if unspecialised scalars are zero |
| `HitSoundness.HitSoundness` | src/compatibility.cpp:506-509 | if a request is accepted under exact topology against any facts, the graph those facts were made of can stand in for the requested one in that sense |
| `HitSoundness.AcceptedIsExact` | src/compatibility.cpp:506-599 | for nodes listed in id order, an acceptance under exact topology is always exact: rebinding and dynamic shapes never occur |
| `HitSoundness.UnmarkedScalarsSlipThrough` | src/topology.cpp:77-81 | for any two scalar patterns that are not marked specialised there are requests that match exactly, and on a machine they replay differently exactly when some lane has different products with the two values converted to single precision |
| `HitReplay.FinalizedReplaysAlike` | src/cache.cpp:503-512 | the capture of a finalised descriptor replays like the capture of the descriptor as it was listed |
| `Sha256.Hasher.ProcessBlock` | include/graphcache/sha256.hpp:112-176 | one block updates the state as section 6.2.2 of FIPS 180-4 defines; the functions and constants are those of the `Sha256Meaning` and `Sha256Constants` rows, and all of it together gives `Sha256Vector.DigestOfAbc` |
| `Sha256.Hasher.Update` | include/graphcache/sha256.hpp:35-50 | the message absorbed so far grows by the given bytes, and the state is the fold of the block function over its whole blocks |
| `Sha256.Hasher.Final` | include/graphcache/sha256.hpp:60-82 | the padding loop ends, and the result is the digest of the message padded as in section 5.1.1 of FIPS 180-4, of which `Sha256Vector.DigestOfAbc` gives the value for one message |
| `Sha256.HashPieces` | include/graphcache/sha256.hpp:35-82 | for any split of a message into updates the result is the one-shot digest |
| `Sha256Meaning.BigSigma0Bits` | include/graphcache/sha256.hpp:156-156 | bit i of the function is the exclusive or of bits i+2, i+13 and i+22, positions wrapping at 32 |
| `Sha256Meaning.BigSigma1Bits` | include/graphcache/sha256.hpp:152-152 | bit i of the function is the exclusive or of bits i+6, i+11 and i+25 |
| `Sha256Meaning.SmallSigma0Bits` | include/graphcache/sha256.hpp:137-137 | bit i of the function is the exclusive or of bits i+7, i+18 and, below 29, i+3 |
| `Sha256Meaning.SmallSigma1Bits` | include/graphcache/sha256.hpp:138-138 | bit i of the function is the exclusive or of bits i+17, i+19 and, below 22, i+10 |
| `Sha256Meaning.ChBits` | include/graphcache/sha256.hpp:153-153 | each bit of the first word chooses between the bits of the other two |
| `Sha256Meaning.MajBits` | include/graphcache/sha256.hpp:157-157 | each bit is the majority of the three |
| `Sha256Constants.RoundConstants` | include/graphcache/sha256.hpp:113-127 | the round constants are the first 32 bits of the fractions of the cube roots of the first 64 primes: of 2, and then of each least prime above the one before |
| `Sha256Constants.InitialValues` | include/graphcache/sha256.hpp:22-31 | the initial state is the first 32 bits of the fractions of the square roots of the first eight primes |
| `Sha256Vector.DigestOfAbc` | include/graphcache/sha256.hpp:60-176 | padding, schedule, rounds and output give FIPS 180-4's digest of the bytes abc, byte for byte |
| `Facts.MakeFacts` | src/cache.cpp:82-111 | the facts of a request, by the scan over its nodes in listing order; what each of them is on the request is said by the `RequestFields` rows |
| `Facts.AlignmentIsMaximum` | src/cache.cpp:91-106 | the required alignment is the greatest any typed node asks for, and 128 when none is typed |
| `Facts.TopologyDeterminesTensors` | src/cache.cpp:82-111 | for id-ordered nodes equal canonical topology forces equal alignment, binding, shape, datatype, layout, scalar and quantization facts |
| `Facts.ScansAlikeExactly` | src/cache.cpp:82-111 | two listings of the same nodes give the same tensor facts exactly when their typed nodes have equal datatypes, layouts and shapes in the same places and the last binding, last specialised scalar and last quantization agree; the alignment never depends on the order |
| `Decide.DecideCompatibility` | src/compatibility.cpp:440-623 | the flags and reasons collected step by step give the decision function's class and reason list; what that is on the fields is said by the `DecideFields` rows |
| `Decide.DecisionMeaning` | src/compatibility.cpp:440-623 | a request is accepted exactly when every hard domain agrees and each binding or shape difference is legal, and each of the three accepting classes is characterised by which differences there are; `DecideFields.AcceptedExactly` and `DecideFields.ClassExactly` say it on the fields alone |
| `DecideFields.AcceptedExactly` | src/compatibility.cpp:440-623 | a request is accepted exactly when no domain fails, each failure written out as a comparison of fields of the two facts and flags of the policy |
| `DecideFields.RefusedExactly` | src/compatibility.cpp:440-623 | a refusal names the first of the twenty domains that fails, in the order they are compared |
| `DecideFields.ClassExactly` | src/compatibility.cpp:608-622 | an accepted request is rebound exactly when alignment, schema, binding class or binding alignment differ, else of dynamic shape exactly when the shapes differ, and else exact |
| `DecideFields.ReasonsExactly` | src/compatibility.cpp:440-623 | between workloads that may be compared, the reasons list every domain that fails and every concession made, whatever the verdict, and an exact match exactly when it is one |
| `DecideFields.RelaxingKeepsAcceptance` | src/compatibility.cpp:440-623 | a policy that requires nothing more and allows nothing less never refuses what a stricter one accepts |
| `DecideFields.DecimalIsDecimal` | src/compatibility.cpp:514-519 | generations are compared as decimal numbers without leading zeros |
| `RequestFields.RequestAcceptedExactly` | src/cache.cpp:82-111 | a request is accepted against the facts of another exactly when no comparison fails on the two requests themselves: workload, platform, synchronisation, canonical topology, dependencies, typed nodes, last scalar, quantization and binding, greatest alignment, revision |
| `RequestFields.FreshExactly` | src/cache.cpp:149-164 | the dependencies of one request are fresh for those of another exactly when no counting dependency of one name differs in generation, digest or ABI |
| `RequestFields.AnsweredExactly` | src/cache.cpp:582-625 | what a search answers, on the requests that the entries were captured for: a hit exactly if something selectable of the joined workload name has not moved on and fails no comparison, else incompatible exactly if something has not moved on, else stale exactly if there is anything, and else a capture is required |
| `RequestFields.OwnCaptureServes` | src/cache.cpp:149-164 | a capture serves the very request it was made for exactly when the request does not count two versions of one dependency, keeps no NaN as its specialised scalar, and passes the namespace filter |
| `RequestFields.OwnCaptureIsStale` | src/cache.cpp:596-602 | a request that counts two versions of one dependency name is answered with a stale dependency by its own captures, under every policy |
| `RequestFields.TwoVersionsClash` | src/cache.cpp:149-164 | two counting dependencies of one name in generations 1 and 2 are such a pair |
| `RequestFields.SameKeyExactly` | src/cache.cpp:82-111 | two requests are keyed by the same bytes exactly when they agree in workload, platform but for the driver's text, synchronisation modes, canonical topology, what the scan keeps of the nodes, and dependencies but for their provenance |
| `Decide.DatatypeFailsFirst` | src/compatibility.cpp:440-531 | if everything compared before the datatypes agrees and they do not, the decision is IncompatibleDatatype |
| `Decide.SelfCompatibleExactly` | src/compatibility.cpp:536-541 | facts are compatible with themselves exactly when the specialised scalar they keep is not a NaN |
| `Decide.ExactIsSymmetric` | src/compatibility.cpp:440-623 | an exact match stays one with request and candidate exchanged, if both count the same dependencies |
| `Decide.CompareDependencies` | src/compatibility.cpp:510-527 | reports a difference exactly when some counting candidate dependency's joined string is missing from the request's |
| `DependencyKeys.DependencyCheckSound` | src/compatibility.cpp:510-527 | unless a counting name of the request and a different one of the candidate extend one another, the joined strings compare name, generation and digest |
| `DependencyKeys.DependencyCheckExactly` | src/compatibility.cpp:510-527 | for the names requests and candidates may use, the check is right for all generations and digests exactly when no two different ones of them extend one another |
| `DependencyKeys.ConfusedPair` | src/compatibility.cpp:510-527 | for any two names of which one extends the other there are dependencies of these names that pass the check unsupplied |
| `DependencyKeys.NamesConfusedExactly` | src/compatibility.cpp:514-519 | two different names can be confused exactly when one extends the other by a bar and a decimal number |
| `DependencyKeys.DependencyCheckConfused` | src/compatibility.cpp:510-527 | a dependency that the request does not supply can pass the check |
| `FactsCodec.DecodeEncode` | src/compatibility.cpp:112-304 | decoding an encoding succeeds exactly within the decoder's limits and returns the facts up to omitted fields |
| `FactsCodec.FromCanonicalExact` | src/compatibility.cpp:318-336 | a byte string is accepted exactly when it is the encoding of some facts within the decoder's limits |
| `FactsCodec.EncodeFactsInjective` | src/compatibility.cpp:308-316 | encodings, and so keys before hashing, are equal exactly when the normalised facts are |
| `LooseCodec.ReadLoose` | src/serialization.cpp:149-243 | the reader loop with its malformed test computes the fold over the fields that the decoders are defined by |
| `LooseCodec.NodeBack` | src/serialization.cpp:149-204 | a stored node is decoded to the node with unwritten fields at their initial values |
| `LooseCodec.EdgeBack` | src/serialization.cpp:206-224 | a stored edge is decoded to itself |
| `StoredCodec.DescriptorBack` | src/serialization.cpp:247-374 | a stored descriptor within the decoder's limits is read back as itself up to what is never written |
| `StoredCodec.MetadataBack` | src/serialization.cpp:376-426 | stored metadata is read back exactly |
| `StoredCodec.PayloadBack` | src/cache.cpp:340-359 | an entry payload is read back as its descriptor, up to what is never written, and its metadata |
| `Envelope.BuildEnvelope` | src/persistence.cpp:64-81 | the pushes build magic, version, length, payload, checksum length and SHA-256 checksum |
| `Envelope.ParseEnvelope` | src/persistence.cpp:84-116 | the checks in order, with the length sum taken in 32 bits, give the outcome of the parse function |
| `Envelope.EnvelopeExact` | src/persistence.cpp:64-116 | for every format version, and so for version 1, a payload is returned on exactly the envelopes built for payloads of at most 2^32-17 bytes, also when the length sum wraps around |
| `Envelope.ParseStaysInside` | src/persistence.cpp:101-114 | some file makes the parser read outside it exactly when the store was opened for format version 32 |
| `HexIds.NameExact` | src/persistence.cpp:20-50 | a file name is read as an identity exactly when, in lower case, it is how that identity is written |
| `HexIds.ParseName` | src/persistence.cpp:28-50 | the two digit loops and the final test compute that reading |
| `HexIds.ToStringInjective` | include/graphcache/ids.hpp:235-241 | different artifact identities print differently |
| `Recovery.RecoveredFacts` | src/cache.cpp:117-147 | facts rebuilt from storage equal the captured ones, as far as written, exactly when the request's platform is its descriptor's, and in identity order the typed nodes have the same datatypes, layouts and shapes in the same places and the last binding, specialised scalar and quantization are the same |
| `Recovery.RecoveredDecides` | src/cache.cpp:117-147 | under every policy a recovered entry accepts the request that captured it exactly when the policy admits the namespace, the request's platform is its descriptor's as far as the policy compares it, and in identity order the typed nodes' datatypes and layouts, the last scalar and the last quantization agree while binding and shapes agree or are admitted |
| `Recovery.ListingOrderMatters` | src/cache.cpp:93-105 | an entry with two nodes of different datatypes, listed against their identity order, refuses after recovery the request that captured it, with IncompatibleDatatype under every policy that admits its namespace |
| `Recovery.PersistThenRecover` | src/cache.cpp:772-818 | the file loads; the entry keeps its key; every request under every policy gets the captured entry's decision; the graph is valid and on each machine its capture replays as before exactly when its kernels compute the same lanes, which unspecialised scalars at zero ensure everywhere |
| `CacheRecovery.RecoveredInv` | src/cache.cpp:992-1041 | recovery of any files, one per artifact, establishes every invariant the engine relies on with both counters past everything recovered; generations are in order exactly when the last live entry listed for each key has the greatest generation of its key and no two entries of a key share one |
| `CacheRecovery.RecoveredSelectsNewest` | src/cache.cpp:1003-1028 | the recovered cache selects exactly the newest live entries of each key, exactly when of the live files of each key a newest one is listed last |
| `CacheRecovery.RestartExactly` | src/cache.cpp:992-1041 | with files that mirror a registry, possibly from before an invalidation, a restart keeps exactly what searches can select, exactly when the last live file of each rebuilt key is of an entry that is still selectable, every selectable entry has a file that loads, and no two selectable entries load under one key |
| `CacheStore.RestartFromDisk` | src/cache.cpp:732-831 | the same from the bytes on disk: files that load are decoded, keys rebuilt from the stored descriptors, and the others skipped |
| `CacheRecovery.RecoveredAnswers` | src/cache.cpp:992-1041 | for any list of files, a search of the recovered cache hits exactly when one of the entries that came out current would have matched, and returns such an entry with the decision made on its captured facts |
| `CacheRegistry.SearchIsFullScan` | src/cache.cpp:573-626 | a search hits exactly when some published entry with the request's name and namespace is uninvalidated, current for its key, eligible, fresh and compatible; what it returns is such an entry, and exact whenever an exact one exists, even if joined workload keys collide |
| `CacheRegistry.CaptureRequiredExactly` | src/cache.cpp:587-623 | a capture is asked for exactly when no selectable entry has the request's joined workload key |
| `CacheRegistry.CandidatesDecide` | src/cache.cpp:582-625 | the three misses by what is selectable under the joined key: a candidate that is up to date makes the miss incompatible, and only if every candidate is stale is a stale dependency reported |
| `CacheRegistry.HitTakes` | src/cache.cpp:582-625 | of the entries under the joined key in the order they were published, a hit takes the last exact one, or else the first that is compatible |
| `CacheRegistry.CollisionBlocksCapture` | src/cache.cpp:587-623 | while an entry of a colliding workload is selectable and none of the request's own name is, a search neither hits nor asks for a capture, under any policy |
| `CacheRegistry.WorkloadsCollide` | src/cache.cpp:113-115 | for any three texts a, b, c the workloads a|b in c and a in b|c have different names and the same joined key |
| `GraphCache.IsDependencyFresh` | src/cache.cpp:149-164 | true exactly when every captured dependency that shares its name with a wanted one, both counting, has its generation, digest and ABI |
| `GraphCache.PersistedEntryLoads` | src/cache.cpp:772-818 | the file of a persisted capture loads as an entry with the same key and the captured facts as far as written |
| `GraphCache.FileLoadsAs` | src/cache.cpp:772-818 | the file of a persisted capture loads with its artifact, generations, flag, backend, graph identity, key and facts |
| `GraphCache.RecoveredFilesAnswer` | src/cache.cpp:992-1041 | a cache recovered from the files of captured requests, the newest of each key listed last, answers every search as the captured entries would have: it hits exactly when the newest uninvalidated entry of some key would have matched, with the same decision |
| `GraphCache.LoadFile` | src/cache.cpp:821-831 | a file loads as the entry its envelope and payload decode to, or not at all |
| `GraphCache.Cache.SearchCandidates` | src/cache.cpp:573-626 | the candidate loop computes the search function |
| `GraphCache.Cache.PublishEntry` | src/cache.cpp:554-561 | all three indices and the current generation change as the publication move says, and nothing else |
| `GraphCache.Cache.MaterializeExec` | src/cache.cpp:664-676 | an executable is put in only where there is none, together with host residency |
| `GraphCache.Cache.Invalidate` | src/cache.cpp:836-908 | the cache generation goes up, the targets are exactly the entries in scope that the artifact index points at, and exactly those are marked; the generation counter advances by the number newly marked; the scopes are said on fields by `InvalidationScopes.ScopesMean` |
| `GraphCache.Cache.Recover` | src/cache.cpp:992-1041 | an empty cache becomes the registry recovered from the files that load |
| `CacheMoves.StepInv` | src/cache.cpp:502-561 | every move keeps the indices in agreement, the generation counter ahead of all entries, residency and executable together, and the newest entry in each artifact slot if artifacts determine keys |
| `CacheMoves.OrderKept` | src/cache.cpp:554-561 | every move keeps the current generation of each key the greatest published for it, if it was |
| `CacheMoves.NeverSelectableAgain` | src/cache.cpp:594-598 | a move never makes an invalidated or superseded entry selectable |
| `CacheMoves.PublishedIsFound` | src/cache.cpp:555-563 | right after a publication, every request that the new entry serves exactly is answered with it, whatever else is there |
| `CacheInvalidation.InvalidatesExactly` | src/cache.cpp:836-903 | after an invalidation an entry is invalidated exactly when it was before or it is in scope and in the artifact index; `InvalidationScopes.ScopesMean` says it on the fields of the entries |
| `InvalidationScopes.ScopesMean` | src/cache.cpp:844-885 | for each of the ten scopes: exactly the entries that occupy their slot in the artifact index and have the artifact, graph identity, namespace, workload name, revision, backend or other dependency generation asked for are marked and stop being selectable, and every other entry and every index stays as it was |
| `InvalidationScopes.NamespaceExactly` | src/cache.cpp:853-855 | invalidating a namespace leaves nothing of it selectable exactly when every selectable entry of it occupies its slot, and entries of other namespaces stay as they were |
| `InvalidationScopes.NamespaceIsComplete` | src/cache.cpp:853-855 | that is so whenever equal artifact identities imply equal keys |
| `InvalidationScopes.MarkedCount` | src/cache.cpp:887-903 | each target newly marked moves the graph generation on by one, however often it is listed |
| `CacheInvalidation.InvalidateAllExactly` | src/cache.cpp:844-846 | invalidating everything in one step leaves nothing selectable exactly when every selectable entry occupies its slot in the artifact index |
| `CacheInvalidation.InvalidateAllIsComplete` | src/cache.cpp:910-914 | that is so whenever equal artifact identities imply equal keys |
| `SingleFlight.StepInv` | src/cache.cpp:460-497 | every step of every thread keeps: a running owner owns the attempt in flight for its key, and every attempt that is in flight or not done has its owner running |
| `SingleFlight.NoWaiterIsLost` | src/cache.cpp:479-495 | a waiter can wake up, or the owner it waits for can record a result, whatever it is, after which the waiter can |
| `Leases.StepInv` | src/cache.cpp:683-690 | every atomic access of granting and releasing keeps each counter equal to the number of leases it should count |
| `Leases.GuardsHold` | src/cache.cpp:684-687 | neither guarded decrement ever finds its counter at zero |
| `EngineInvariant.StepInv` | src/cache.cpp:370-661 | every action of every thread keeps the invariants of registry, flights and ledger and what each thread relies on at its place, in particular that a capture's generation stays ahead of all others of its key |
| `EngineRuns.RunInv` | src/cache.cpp:370-661 | these invariants hold in every state of every run of any number of threads, from an empty cache or from any store with one file per artifact, in whatever order its files are listed |
| `EngineRuns.OneCapturePerKey` | src/cache.cpp:460-491 | in every run at most one thread at a time captures a key |
| `EngineRuns.OwnerAdvances` | src/cache.cpp:476-490 | an owner's next step is always possible and brings its attempt closer to being done |
| `EngineRuns.NoWaiterIsStuck` | src/cache.cpp:492-496 | in every run a waiter can wake up, or the owner it waits for can take its next step |
| `EngineFlights.WaiterGetsOwnersCapture` | src/cache.cpp:476-496 | in every run of the engine a waiting lookup returns the result that the owner of its attempt recorded at the end of its capture of the waiter's key, and a success was published by that owner in that capture |
| `EngineRuns.CurrentNeverDecreases` | src/cache.cpp:532-559 | in every run each key's current generation only increases |
| `EngineRuns.SelectableIsNewest` | src/cache.cpp:594-598 | in every run that starts with generations in order, the selectable entry of a key is the one with the greatest generation, and there is no second one |
| `EngineRuns.NeverFoundAgain` | src/cache.cpp:594-598 | in every run an invalidated entry is never returned by a later search, for any request and policy |
| `EngineRuns.InvalidateAllInRun` | src/cache.cpp:836-903 | in every run that starts with generations in order, nothing is selectable right after everything is invalidated in one step, if equal artifact identities imply equal keys |
| `EngineProgress.InvalidationMarksAll` | src/cache.cpp:887-903 | in every run, when an invalidating thread is through with its targets, every entry it collected is invalidated, whatever the other threads did meanwhile |
| `EngineProgress.LookupFliesOnce` | src/cache.cpp:386-417 | in every run a lookup takes part in at most one capture |
| `EngineProgress.SuccessSeeksAgain` | src/cache.cpp:396-417 | a capture that succeeds is followed by a second search for the same request, and one that fails ends the lookup |
| `EngineRuns.PublisherSawNoBump` | src/cache.cpp:502-561 | in every run a capture that publishes saw no generation bump between its start and its check, and publishes under the current generation exactly when there was none between check and publication either |
| `EngineRace.LateInvalidationIsMissed` | src/cache.cpp:547-561 | a run in which everything is invalidated between check and publication, and the entry is published and selectable all the same |
| `EngineJobs.OneArtifactTwoKeys` | src/cache.cpp:503-531 | one descriptor under two workloads is captured as one artifact with different encoded facts, and under one key exactly if their SHA-256 digests collide |
| `EngineJobs.CapturedFields` | src/cache.cpp:522-543 | an entry has the workload, backend and given artifact of its request, and as dependency generation the greatest of its dependencies, counting or not |
| `EngineJobs.GraphIdExactly` | src/cache.cpp:531-531 | two captures have one graph identity exactly when workload name, artifact and key agree, up to a collision of the first sixteen digest bytes |
| `EngineShared.SharedArtifactSurvives` | src/cache.cpp:836-903 | a run from an empty cache: one descriptor is looked up under two workloads, then everything is invalidated from beginning to end, and the entry captured first is still selectable |
| `EngineRestart.SupersededReturns` | src/cache.cpp:1015-1028 | a run from an empty cache: one graph is captured under two names, so under one key as two artifacts; a restart from the bytes of both files, the newer one listed first, selects the superseded entry and not the current one |
| `EngineRestart.InvalidationForgotten` | src/cache.cpp:836-908 | a run from an empty cache: an entry is captured and its file written, then everything is invalidated from beginning to end, and a restart from the bytes of that file selects the entry again |
| `EngineRestart.KeysMerge` | src/cache.cpp:117-147 | a run from an empty cache: one graph is captured under two names for two platforms, so under two keys; both files rebuild one key, and a restart loses the entry whose file is listed first |
| `EngineStore.RestartInRun` | src/cache.cpp:552-565 | in every run over entries with generations of their own, at every step and with every store written on the way, which may also hold files that do not load, a restart keeps exactly what searches can select, exactly when the files are up to date in the sense above |
| `EngineStore.RestartStarts` | src/cache.cpp:992-1041 | what a run leaves on disk starts another run over entries with generations of their own, of which all of this holds again |
| `EngineStore.RunUnique` | src/cache.cpp:532-533 | in every run that starts from entries with generations of their own, no generation is given out twice |
| `EngineJobs.OneKeyTwoArtifacts` | src/cache.cpp:503-531 | requests that differ only in the graph's name have the same facts and key, and their artifacts are named after different bytes |
| `EngineRuns.CollidingWorkloadIsNotCaptured` | src/cache.cpp:384-398 | in every run, while an entry of a colliding workload is selectable, no search of the request enters a capture, and it ends in a plain miss if nothing of its own name is selectable |
| `EngineRuns.LeasesHoldExecutables` | src/cache.cpp:678-695 | in every run every lease ever granted holds an executable |
| `EngineLease.LeaseIsLiveExactly` | src/cache.cpp:635-644 | in every run a lease follows a recheck of its own that found the entry live, and is opened on a live entry exactly when no invalidation marked it in between |
| `EngineLease.InvalidatedIsLeased` | src/cache.cpp:635-644 | a run in which everything is invalidated between recheck and lease, and the lease is opened on the invalidated entry |
| `EngineHits.EveryEntryKeepsOne` | src/cache.cpp:499-545 | in every run over requests, from any store with one file per artifact, each entry holds the finalised descriptor of a request that a step of the run built it for, or the descriptor loaded from a file |
| `EngineHits.EveryStoreStarts` | src/cache.cpp:992-1041 | every store with one file per artifact starts a run, in whatever order its files are listed |
| `EngineHits.LeaseReplaysOwnRequest` | src/cache.cpp:625-695 | in every run, a request that asked for exact topology and opens a lease gets an executable whose graph can stand in for its own: valid with it, replaying alike on each machine exactly when they compute the same lanes, and everywhere if unspecialised scalars are zero |
| `EngineHits.EveryLeaseHasSource` | src/cache.cpp:625-695 | in every run over requests, from any store with one file per artifact, every lease has such a request as its holder and such a descriptor behind it |
| `EngineRuns.ExecutableIffResident` | src/cache.cpp:534-536 | in every run an entry has an executable exactly when it is host resident, and none is backend resident |
| `EngineRuns.LeaseConservation` | src/cache.cpp:678-690 | lease conservation in every run of the whole engine |
| `Protocol.EncodeMessage` | src/protocol.cpp:61-79 | the byte loops append the header in little-endian order and the payload |
| `Protocol.DecodeMessage` | src/protocol.cpp:81-128 | the checks and offsets compute the decoding function |
| `Protocol.MessageExact` | src/protocol.cpp:61-128 | the decoder returns a message on exactly its encoding, for legal types, version 1 and payloads within the maximum |
| `Frames.Connection.Receive` | tools/coordinator_main.cpp:131-148 | one receive hands on the complete frames of what has arrived so far and keeps the rest, or closes on an oversized length |
| `Frames.ChunkingDoesNotMatter` | tools/coordinator_main.cpp:131-148 | for any split of a stream into receives the bodies processed are those of the whole stream, up to the first oversized length |
| `Frames.MessagesArrive` | src/protocol.cpp:130-141 | legal messages sent one after the other arrive once each, in order and unchanged, however the stream is cut |
| `Coordinator.Process.HandleLookup` | tools/coordinator_main.cpp:211-292 | a hit is answered, a miss is dispatched to the least connected worker under a fresh attempt, and bad requests are refused, with the state changed accordingly and no further; `CoordinatorHits.SameKeyExactly` says which lookups share a key |
| `Coordinator.Process.HandleCaptureResult` | tools/coordinator_main.cpp:294-347 | an unknown attempt is refused, a pending one is consumed, and a successful one is published under its artifact and its key |
| `Coordinator.Process.HandleReplayInstruct` | tools/coordinator_main.cpp:349-386 | a replay is forwarded only for an artifact that is present and not invalidated, at the generation asked for |
| `Coordinator.Process.HandleInvalidate` | tools/coordinator_main.cpp:403-419 | the cache generation and, if flagged, the epoch advance and every graph is invalidated |
| `Coordinator.Process.Handle` | tools/coordinator_main.cpp:152-421 | every message changes the state and is answered as the transition function says, authority checks first |
| `CoordinatorRuns.WorkerEchoes` | tools/worker_main.cpp:158-207 | whatever a worker answers echoes the authority of the instruction and is admitted by the runs considered |
| `CoordinatorRuns.StepRefines` | tools/coordinator_main.cpp:152-421 | each step acts on generations, pending captures and graphs as one of five core effects |
| `CoordinatorSafety.ServedUnderCurrentAuthority` | tools/coordinator_main.cpp:194-334 | in every run each graph that is present and not invalidated was published under the current cache generation from a capture dispatched under that generation |
| `CoordinatorSafety.RelayedUnderCurrentAuthority` | tools/coordinator_main.cpp:349-401 | in every run each relayed replay result was instructed under the current cache generation, for a graph that was present then and still is, at least as new |
| `CoordinatorSafety.PublishesOnce` | tools/coordinator_main.cpp:296-304 | in every run each capture attempt publishes at most once, however often its result is delivered |
| `CoordinatorSafety.ReportsNeverDecrease` | tools/coordinator_main.cpp:248-345 | in every run the graph generation reported for a key never decreases |
| `CoordinatorSafety.HitIsPresent` | tools/coordinator_main.cpp:248-263 | in every run a lookup hit names an artifact whose own entry is present, not invalidated and at least as new, captured for a lookup with the same key |
| `CoordinatorReplay.ReplayAfterHit` | tools/coordinator_main.cpp:349-386 | in every run a replay of what a hit named, at the generation it reported, is forwarded exactly when nothing was invalidated since and the artifact was not published again since the capture that the hit found; otherwise it is refused as stale |
| `CoordinatorReplay.RunKnown` | tools/coordinator_main.cpp:369-373 | in every run each worker that is connected, awaited or named by a graph has a socket on record, so no replay is refused for want of one, connected or not |
| `CoordinatorRefusal.ReportedReplayIsRefused` | tools/coordinator_main.cpp:363-366 | a run in which one descriptor is captured under two workloads, a hit on the first reports generation 2, and the replay that asks for it is refused because the artifact has moved on to 3 |
| `CoordinatorHits.HitIsOfOneGraph` | tools/coordinator_main.cpp:229-263 | in every run a hit was captured for a lookup of the same graph: up to a collision of their keys, the two agree in workload, platform, dependencies, canonical topology and typed nodes, and the two descriptors can stand in for each other on replay |
| `CoordinatorHits.SameKeyExactly` | tools/coordinator_main.cpp:229-247 | up to a collision, two lookups have one key exactly when they agree in workload, backend, device, runtime but for the driver's text, canonical topology, datatypes and layouts of the typed nodes, last scalar, and dependencies but for their provenance |
| `CoordinatorRelay.RelayedToAsker` | tools/coordinator_main.cpp:388-401 | in every run a relayed replay result carries the worker's status and payload to the last client whose forwarded request of that number is still unanswered, and back to the sender if there is none |
| `CoordinatorRelay.CompletionToAsker` | tools/coordinator_main.cpp:294-347 | in every run the outcome of a capture goes to the client, and under the number, of the lookup that dispatched it: the artifact's name, or that the capture failed |
| `CoordinatorRelay.RepliedToSender` | tools/coordinator_main.cpp:150-420 | every other reply goes back on the socket and under the number that it answers, with the epoch and cache generation after the step |
| `CoordinatorFence.RefusedExactly` | tools/coordinator_main.cpp:192-209 | in every run a message other than a registration or a greeting is refused exactly when its epoch or cache generation is not the current one or its boot is not the one its worker last registered with, zeroes aside; the refusal names the first of these and leaves the state as it was |
| `CoordinatorFence.InvalidationFences` | tools/coordinator_main.cpp:403-421 | after an invalidation nothing is served, and what was sent under the cache generation before it, or under the epoch before it if it starts a new one, is refused ever after |
| `CoordinatorFence.RegistrationAnswered` | tools/coordinator_main.cpp:158-180 | a registration takes effect exactly when its epoch is not old and no other boot of the worker is connected, and the acknowledgement says which |
| `CoordinatorFence.InstructionAddressed` | tools/coordinator_main.cpp:265-386 | in every run a capture goes to the least connected worker and a replay to the worker that captured the graph, with the boot and on the socket of that worker's last registration |
| `Worker.Process.HandleCapture` | tools/worker_main.cpp:171-185 | a capture that decodes and is valid is kept under the artifact of its finalised descriptor in place of what was there, and reported; any other changes nothing and is reported as failed |
| `Worker.Process.FindTarget` | tools/worker_main.cpp:186-195 | the search by printed identity finds the graph that is kept under the named artifact, if there is one |
| `Worker.KeepsTopology` | tools/worker_main.cpp:171-185 | if what is captured under an artifact is named after what it means, without a collision, the worker keeps under it the canonical graph that each of those captures was for, however many followed |
| `CoordinatorWorker.WorkerReports` | tools/worker_main.cpp:160-185 | what the worker answers to a capture instruction names the artifact it captured, so it is one of the reports that the runs below take as the only successful results |
| `CoordinatorWorker.ReplayExecutes` | tools/worker_main.cpp:171-207 | in every run, for a forwarded replay of what a hit named, on the connection that was told to capture it, the worker executes the last capture that was sent to it under that artifact, also when its result has not come back |
| `CoordinatorWorker.HitExecutesOwnGraph` | tools/worker_main.cpp:171-207 | whatever it executes has the client's canonical graph if nothing else was captured under the artifact since, or if graphs are named after what they mean, up to collisions; and with that graph it replays on each machine as the client's own exactly when they compute the same lanes |
| `CoordinatorWorker.CarriesWithinLimits` | tools/coordinator_main.cpp:279-287 | what the coordinator sends on to a worker comes back as the descriptor of the lookup, as far as it is ever written |
| `CoordinatorOverwrite.AnotherGraphIsReplayed` | tools/worker_main.cpp:179-180 | a run in which two clients gave two graphs one artifact identity: a hit names the first, its replay is forwarded behind the capture of the second, and the worker executes the second, which replays differently on every machine |
| `CoordinatorTarget.ForwardTarget` | tools/coordinator_main.cpp:367-384 | in every run a forwarded replay goes to the socket that the graph's worker last registered on, which is a connection of that worker exactly when the socket was not closed, opened anew or registered by another worker since |
| `CoordinatorTarget.ForwardedToNobody` | tools/coordinator_main.cpp:425-432 | a run in which the only worker disconnects and a replay is still forwarded on its closed socket |

## Left out

- The CUDA backend, sockets, `select`, process handling and files: foreign or
  operating-system calls. The store is the bytes of its files.
- Metrics, events, snapshots, explanations, text tables, clocks, the command
  line, examples and benchmarks: reporting and drivers.
- The lifecycle transition table: the engine never calls it and assigns only
  Valid and Invalidated, which are the two states of the model.
- Residency and eviction policy fields, pin counts and `active_captures`: nothing
  modelled here reads them.
- `invalidated_keys` of the cache: it is written and never read.
- Policy fields that the decision never reads (runtime validation, exact scalar,
  exact quantization).
- Field names and detail texts of reasons: a reason is its code.
- Floating-point values: arithmetic is any function of the operands' bits.
- SHA-256 collisions: results about keys are stated on the bytes that are hashed,
  or on keys as they are.
- `kernel_name`, `datatype` and byte totals of a captured CPU graph: replay does
  not read them.
- Overlapping `memcpy`: modelled as a copy of what was there before.
- `decode_shape` on a payload shorter than four bytes: modelled as a refusal,
  where the code takes a subspan that does not exist.
- Updates in place by the strict decoders and the descriptor and facts writers:
  `decode_facts`, `deserialize_descriptor`, `deserialize_metadata`,
  `encode_facts` and `serialize_descriptor` are straight-line sequences of reads
  and writes, modelled as functions over the fields that the reader delivers and
  the writer appends.
- CacheMoves.StepInv: generation counters of the engine do not wrap around; that
  would take 2^64 captures or invalidations.
- CoordinatorSafety.ServedUnderCurrentAuthority: runs are shorter than 2^64 - 1
  steps, so that no counter wraps around; the same holds for the other results
  about coordinator runs.
- CoordinatorSafety.HitIsPresent: `sscanf` is a parameter that is only required
  to read back what `to_string` prints.
- CoordinatorRuns.WorkerEchoes: what a worker captures is left open there, since
  the coordinator's safety does not depend on it; `Worker` says what it captures.
- EngineHits.LeaseReplaysOwnRequest: for policies that do not ask for exact
  topology nothing is promised about replay; the code then accepts graphs that
  are different.
- CoordinatorWorker.ReplayExecutes: nothing is promised on a connection other
  than the one that was told to capture; a worker that connects again has no
  graphs. A worker on the CPU backend captures every valid graph.
- CoordinatorWorker.HitExecutesOwnGraph: two different canonical graphs may happen
  to replay alike; for those no exact condition is given.
- EngineStore.RestartInRun: a file is written whole or not at all, as the rename
  in src/persistence.cpp has it.
- CacheRecovery.RecoveredInv: recovery into a cache that is in use is not
  considered, and a file holds the artifact it is named after.
- Replies to clients: pending entries can outlive a rejected completion, so only
  safety is stated for the coordinator.
