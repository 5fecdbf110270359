# Verified model of the MirrorECMA client

MirrorECMA drives an implementation along traces of a TLA+ model and reports whether it
behaves like the model. This project models the parts of the client in which a mistake
would be hardest to notice, and proves what they promise:

- **Checkpoint schedules.** The bounded enumeration of interleavings, the controller that
  runs one of them over worker threads, the bootstrap inside each worker, the two composed
  over their message ports, the receipts, the coverage tables and the verdict "complete".
- **Values and their texts.** The identity of ITF values, the canonical state text of the
  explorer, checked snapshots, the wire encoding, typed (native) projections and contract paths.
- **Model interface descriptors.** The strict JSON parser and the compact canonical printer,
  the canonical form of types, literals and whole descriptors, the decoder's limits, and the
  cache that keeps descriptors by digest.
- **Protocol.** Byte framing, the line iterator, the queue of a job connection, the replay
  loop with its evidence tracker and recorder, and acceptance requirements.
- **Inputs of a run.** The dependency closure of a specification, the LeaseService input
  reduction and the prefix search of a reproduction.

Code that is expressions and recursion is modelled by datatypes and functions; objects that
update fields are classes (`ScheduleExecution`, `WorkerBootstrap`, `Explorer`, `Snapshot`,
`StrictJsonParser`, `LineQueue`, `Framing`, `Connection`, `MatchedEvidenceTracker`,
`ReplayRecorder`, `DescriptorCache`, `SpecReader`), and loops are loops. Each such method is
proved against a specification function or a stated property, and the theorems are about
that specification.

JavaScript strings are sequences of UTF-16 code units. A record is a sequence of names and
values, in the order in which they are enumerated.

`dafny verify dfyconfig.toml` checks everything.

## Model

| member | source | states |
|---|---|---|
| ScheduleCompletions.EnumerationExact | src/schedule-exploration.ts:59-65 | a schedule is enumerated if and only if it is an interleaving of the actors' chains and has at most the allowed number of preemptions, where both are defined on the schedule alone (projections to each actor, switches away from an unfinished actor) |
| ScheduleCompletions.EnumerationOrdered | src/schedule-exploration.ts:59-65 | the schedules come out in strictly ascending order, so none is enumerated twice |
| ScheduleCompletions.NoDeadEnd | src/schedule-exploration.ts:59-65 | every position reached within the bound can be completed within it: pruning by preemptions never strands the search |
| ScheduleExplorer.Explorer.Visit | src/schedule-exploration.ts:60-64 | one node of the search restores the shared positions and path, whatever happens below it, and gains exactly its completions, or a prefix of them once the search is stopped |
| ScheduleExplorer.EnumerateSchedules | src/schedule-exploration.ts:59-66 | the search yields all schedules, or after an interruption a prefix of them; it reports the enumeration limit only with exactly that many found and at least one more left |
| ScheduleExploration.CheckDeclaration | src/schedule-exploration.ts:53-54 | the one-pass checks accept exactly the declarations with distinct valid actors and operations and chains of valid checkpoints ending in completion |
| ScheduleExploration.DeclaredEnumeration | src/schedule-exploration.ts:53-65 | sorting the declared actors by name leaves the set of enumerated schedules the interleavings of the declaration as written, and there is at least one |
| ScheduleExploration.AdmitSteps | src/schedule.ts:88-90 | the controller's single pass with its set of finished actors accepts exactly the step lists in which every actor is known, completes, and has no step after its completion, and every checkpoint is declared |
| ScheduleExploration.EnumeratedAdmitted | src/schedule.ts:88-90 | every schedule the explorer enumerates is one the controller admits |
| ScheduleExploration.CheckSuccess | src/schedule-exploration.ts:37-41 | the explorer's receipt check accepts exactly the completed receipts with a permit and a matching arrival for every step, in order, and one observation more than steps |
| ScheduleExploration.PassedReceiptsAccepted | src/schedule.ts:180 | a receipt that the controller marks as passed, after any sequence of events, is accepted by that check, and its observations are numbered by the steps before them |
| ScheduleExploration.JudgeSample | src/schedule-exploration.ts:73-90 | a sample counts as passed exactly if it is a confirmed, cleaned-up, successful receipt of the very schedule and actors, new, with the comparison that is required and its states counted; cleanup counts as known exactly for a new, bound, cleaned-up receipt, whatever else is wrong |
| ScheduleExploration.RunAll | src/schedule-exploration.ts:67-96 | the runs are numbered by schedule and input without gaps, each judged exactly as above against the executions before it; nothing is run after an unconfirmed cleanup; and the loop's verdict is complete exactly if the enumeration was reported exhausted, every pair was run and every run passed without a halt |
| ScheduleExploration.PassedRunsDiffer | src/schedule-exploration.ts:77 | no execution is counted for two runs |
| ScheduleExploration.CompleteMeansAllPassed | src/schedule-exploration.ts:95-96 | rows that all passed, one for each pair of an enumerated schedule and an input, hold an accepted receipt of every interleaving within the bound on every input |
| ScheduleExploration.Explore | src/schedule-exploration.ts:48-98 | from a declaration to its verdict: a complete result is a proof by exhaustion, every interleaving of the declared chains within the preemption bound was run on every input with an accepted receipt of that interleaving, and there were exactly that many runs |
| ScheduleCoverage.Cover | src/schedule-exploration.ts:81-88 | one pass over a run's observations numbers new texts densely in order of appearance, keeps old numbers, and adds to each transition's count exactly the number of its moves in this run |
| ScheduleSafety.HandleKeeps | src/schedule.ts:72-178 | whatever event comes, the controller's invariant is kept and nothing decided is undone: the first failure, the stop, the record once stopped, exits and reported completions |
| ScheduleSafety.RunSafe | src/schedule.ts:101-180 | from an admitted start, after any events, at most one actor is running, and if the receipt says passed it is one the explorer accepts and every worker has reported completion and left |
| ScheduleSafety.FirstFailureStays | src/schedule.ts:93-96 | the outcome once failed never changes, a stopped run's events and observations never change, and a failed run never becomes passed |
| ScheduleSystem.NoProtocolViolation | src/schedule-worker.ts:19-45 | controller and workers composed over queues, under every interleaving of deliveries, application calls, answers, clock events and exits: the next message in flight is one the controller expects, the next command one the worker expects, no worker's handler fails, and a worker that left without throwing exits with code zero and its finish on record |
| ScheduleObjects.ScheduleExecution.Dispatch | src/schedule.ts:70-178 | each callback of the event loop, with the fields updated in place, keeps the invariant, makes the controller's transition, undoes nothing decided, leaves at most one actor running, and leaves a passed receipt only if the explorer accepts it |
| ScheduleObjects.ScheduleExecution.DispatchAll | src/schedule.ts:93-178 | so does any number of callbacks; a first failure stays, and a stopped object's record is frozen |
| ScheduleStates.StateTextMeaning | src/schedule-exploration.ts:21-32 | two states within the limits have one canonical text only if they are equal as mathematical values, and always if field names within one record can be told apart in UTF-8 |
| ScheduleStateTexts.OneTextIffLegible | src/schedule-exploration.ts:21-32 | a state has one text in all its equal forms exactly if no record in it has two fields whose names have the same UTF-8 bytes |
| ConfusedStates.LoneSurrogatesShow | src/schedule-exploration.ts:21-32 | two equal states within the limits with different texts: one ordinary variable that is a record with two such names |
| ValueIdentity.IdentityIsEquality | src/opaque-itf.ts:53-78 | two values have one identity key exactly if they are equal up to the order of set elements, map entries and record fields |
| ValueIdentity.SameEquivalence | src/opaque-itf.ts:78 | that equality is reflexive, symmetric and transitive on well-formed values |
| JsonText.RenderInjective | src/model-interface.ts:907-946 | printing is injective and prefix-free in both modes: a printed tree without fractions determines the tree and where its text ends |
| OpaqueItf.Unique | src/opaque-itf.ts:80-87 | the pass with a set of keys accepts exactly the lists without two elements equal up to order |
| OpaqueItf.Snapshot.Visit | src/opaque-itf.ts:93-161 | a visit succeeds exactly if the value is within the depth left, its nodes fit in the count left and no set or map in it repeats an element or key; then it has counted exactly the value's nodes |
| OpaqueItf.SnapshotValue | src/opaque-itf.ts:90-163 | a snapshot succeeds exactly for values within the limits without repeats |
| StrictJsonRoundTrip.ParserUndoesPrinter | src/model-interface.ts:1461-1634 | the parser reads the printed text of a tree back as that tree exactly if the text is within the byte limit, the nesting within 128, keys distinct and strings well formed, and rejects it otherwise |
| StrictJsonRoundTrip.ParsedIsAcceptable | src/model-interface.ts:1461-1626 | whatever text is parsed, the tree nests at most 128 deep, repeats no key and holds only well-formed strings |
| StrictJsonRoundTrip.ReparsedIsSame | src/model-interface.ts:1628-1634 | printing a parsed tree whose numbers are safe integers and parsing that, if it is within the byte limit, gives the same tree |
| StrictJsonParsing.ParseStrictJson | src/model-interface.ts:1461-1634 | the recursive-descent parser with its single moving offset returns what the grammar on suffixes says, and rejects when it does |
| WireCodec.BigIntReadsDecimal | src/protocol.ts:387 | the decimal text of every integer is read back as that integer |
| WireCodec.RoundTrip | src/protocol.ts:385-472 | decoding an encoded value gives the value back exactly if no record in it has one of the reserved shapes |
| WireCodec.WalkedIsPlain | src/protocol.ts:436-472 | nothing decoded holds a record of a reserved shape |
| WireCodec.DecodingStabilises | src/protocol.ts:385-472 | decoding, encoding and decoding again is decoding |
| WireCodec.NoStepsNoMessage | src/protocol.ts:461-462 | without a member `proto_step` anywhere nothing is taken for a protocol message |
| WireCodec.WireTextInjective | src/protocol.ts:371-404 | values without reserved records have one wire text exactly if they are one value |
| WireCodec.WireTextAmbiguous | src/protocol.ts:385-404 | an integer and a one-field record with one wire text, for every integer |
| WireCodec.EncodeState | src/protocol.ts:371-380 | the loop over distinct names overwrites nothing: one member per variable, in order, each with its encoded value |
| NativeCodec.ExactKeysMeaning | src/dynamic-binding.ts:123-129 | the comparison of sorted key lists holds exactly if one is a rearrangement of the other |
| NativeCodec.AssertUniqueValues | src/dynamic-binding.ts:135-142 | the duplicate check accepts exactly the lists of acceptable values that are pairwise different up to order |
| NativeCodec.DecodeThenEncode | src/dynamic-binding.ts:221-364 | a value that decodes at a type encodes back, to the same value up to the order of record fields |
| NativeCodec.EncodeThenDecode | src/dynamic-binding.ts:221-364 | a native value that encodes at a type decodes back, to the same native value up to the order of object properties |
| ContractPath.ReadPath | src/dynamic-binding.ts:178-208 | the loop over a path returns what following its segments one by one gives, and fails exactly when that fails |
| ContractPath.FollowRespects | src/dynamic-binding.ts:178-208 | in two values equal up to order a path fails in both or leads to results equal up to order |
| ContractPath.KeySegmentMeaning | src/dynamic-binding.ts:197-204 | a map segment finds the one entry whose key equals the literal up to order |
| UnicodeOrder.PointsInjective | src/model-interface.ts:896-906 | a string is determined by its code points |
| UnicodeOrder.ScalarOrder | src/model-interface.ts:896-906 | comparing code points is a total order of strings |
| UnicodeOrder.CompareUnicodeScalars | src/model-interface.ts:896-906 | the comparison loop gives the sign of that order, and zero exactly for equal strings |
| UnicodeOrder.ArrangedIndependent | src/model-interface.ts:948-982 | a list sorted by name is the same for every order of its input exactly if items of one name are one item |
| DescriptorJson.TypeCanonical | src/model-interface.ts:991-1027 | types with one canonical JSON differ by nothing but the order of fields and cases; and types that so differ have one, if no label is repeated, which the decoder checks |
| LiteralJson.LiteralCanonical | src/model-interface.ts:948-982 | literals with one canonical JSON differ by nothing but the order of set items, fields and entries; and literals that so differ have one, if one of them is settled: in it fields of one name, and entries of one key, have one canonical value, at any depth |
| SettledLiterals.OneJsonIffSettled | src/model-interface.ts:948-982 | a literal has one canonical JSON in all its orders exactly if it is settled |
| CanonicalDescriptor.CanonicalIffAlike | src/model-interface.ts:1028-1085 | descriptors with one canonical tree differ by nothing but order; and descriptors that so differ have one, if ids and labels are distinct and map-key literals settled |
| CanonicalDescriptor.CanonicalTextIffAlike | src/model-interface.ts:1086-1090 | the same for the canonical text, from which the digest is taken |
| CanonicalLength.LiteralSize | src/model-interface.ts:948-982 | literals equal up to order have canonical texts of one length, even if not one text |
| DescriptorLimits.ValidMoved | src/model-interface.ts:650-890 | descriptors equal up to order are valid together, the limit on bytes included, if the effective variables, whose order is checked, are in one order |
| DescriptorLimits.ValidTextIffAlike | src/model-interface.ts:1086-1104 | a valid descriptor whose map-key literals are settled has one canonical text with exactly the descriptors equal to it up to order |
| SettledDescriptors.OneTextIffSettled | src/model-interface.ts:1086-1104 | a valid descriptor has one canonical text, and so one digest, in all its orders exactly if its map-key literals are settled; and already in all its valid orders exactly then |
| SettledDescriptors.TwoTexts | src/model-interface.ts:948-982 | two valid descriptors that differ only in the order of two map entries of one key, with different texts |
| TypeDecoder.TypeReturns | src/model-interface.ts:368-447 | the decoder reads the canonical JSON of every type, to a type with the same canonical JSON |
| LiteralDecoder.LiteralReturns | src/model-interface.ts:448-516 | likewise for literals |
| DescriptorReader.CanonicalIsNormal | src/model-interface.ts:790-890 | the decoder accepts the canonical tree of every valid descriptor, and the result has the same canonical tree and text and is equal up to order |
| DescriptorNesting.DescriptorFit | src/model-interface.ts:1060-1085 | the canonical tree of a valid descriptor is one the printer prints, with distinct keys and well-formed strings, and nests within the parser's 128 exactly if the literals in its paths are shallow enough |
| DescriptorParsing.CanonicalTextParses | src/model-interface.ts:892-894 | parsing the canonical text of a valid descriptor gives an equal descriptor with the same text exactly if those literals are shallow enough, and is rejected otherwise |
| DescriptorParsing.DeepKeysRejected | src/model-interface.ts:448-534 | valid descriptors with a key of any depth below 128 whose own canonical text is rejected exactly from depth 60 on |
| RecencyList.EvictionIsMinimal | src/descriptor-cache.ts:192-199 | eviction drops exactly the shortest prefix whose loss meets both quotas |
| RecencyList.NewestSurvives | src/descriptor-cache.ts:192-199 | an entry that fits by itself survives the eviction it causes |
| RecencyList.LatestUsed | src/descriptor-cache.ts:181-184 | moving a used entry to the end keeps the entries in the order of their last use over the whole history |
| DescriptorCaching.DescriptorCache.Get | src/descriptor-cache.ts:130-136 | a miss changes nothing; an entry that does not verify is dropped and reported; a hit returns the entry's bytes under its digest and makes it the latest; with a decoder whose results decode to themselves there are only hits and misses |
| DescriptorCaching.DescriptorCache.Require | src/descriptor-cache.ts:138-147 | it reports a miss exactly if the digest has no entry, and success leaves that digest latest |
| DescriptorCaching.DescriptorCache.Put | src/descriptor-cache.ts:94-128 | refusals, for decoding or size, change nothing; success leaves the decoded descriptor's bytes latest under its digest, either an old entry moved or a new one after eviction to quota; with such a decoder the only other failure is a digest that stands for other bytes |
| DescriptorCaching.DescriptorCache.MostRecentDigest | src/descriptor-cache.ts:150-156 | the digest of the last entry, if it verifies, and the order is unchanged |
| ProtocolLines.TooLongMeaning | src/transport.ts:144-158 | an unfinished line is refused for its length exactly if no continuation of it could be a line within the limit |
| ProtocolLines.ChunkingDoesNotMatter | src/transport.ts:160-209 | whether a finished stream succeeds depends on its bytes and not on how they are cut into chunks, and a stream that succeeds has emitted exactly its lines |
| ProtocolLines.RunMeaning | src/transport.ts:144-199 | as long as nothing failed exactly the finished lines were emitted and the rest is kept, never more than one byte over the limit |
| ProtocolLines.FailureEmitsNothing | src/transport.ts:192-198 | a failing chunk publishes none of its lines: what was emitted are the lines of the chunks before it |
| ProtocolLines.SentIsReceived | src/transport.ts:45-55 | lines that pass the sender's check are received as sent, however the bytes are cut |
| LineIterator.LineQueue.Emit | src/transport.ts:66-70 | a new line settles no settled pull, and the queue stays consistent: the lines delivered or buffered are the lines emitted, in order, and readers wait only when none is buffered |
| LineIterator.LineQueue.Pull | src/transport.ts:85-92 | a pull is rejected after a failure, else gets the oldest buffered line, else the end if closed, else it waits; earlier pulls are untouched |
| LineIterator.LineQueue.Fail | src/transport.ts:77-84 | a failure rejects exactly the waiting pulls and closes the queue; after an orderly close it is no failure |
| ProtocolFraming.Framing.OnData | src/transport.ts:160-199 | the in-place buffer follows the run over the chunks received: terminal exactly when that has failed, and the queue fails with it |
| ProtocolFraming.Framing.OnEnd | src/transport.ts:201-209 | the end of the input makes the queue fail exactly if the whole stream was not well framed |
| MirrorConnection.Connection.Drive | src/connection.ts:391-438 | under every order of calls, replies, failures and closing, one request at most is outstanding, replies match requests in order, and nothing is sent once the connection is closed or spent |
| MirrorConnection.Connection.NthReplyAnswersNthRequest | src/connection.ts:391-413 | the n-th request answered by a line was answered by the n-th line that arrived, and its outcome is what that line means for its operation |
| MatchedEvidence.MatchedEvidenceTracker.Begin | src/matched-evidence.ts:114-135 | an action is accepted only with nothing pending, under a known label of the right phase and within a trace, and an initial one opens the next trace; a refusal seals the tracker; the counters stay those of the traces matched, and complete means every trace matched |
| MatchedEvidence.MatchedEvidenceTracker.Acknowledge | src/matched-evidence.ts:143-147 | an acknowledgement extends the current trace by exactly the pending action, and a refusal seals the tracker |
| MatchedEvidence.MatchedEvidenceTracker.Finish | src/matched-evidence.ts:148-157 | an accepted end means every announced trace was matched to its full length, nothing is uncertain, and all counters are those of the matched traces |
| MatchedEvidence.MatchedEvidenceTracker.Interrupt | src/matched-evidence.ts:158-165 | an interrupted tracker is sealed; if it was not before, it is certain exactly if a rejected state was pending or, without a rejection, nothing was; rejecting with nothing pending is the one error |
| MatchedEvidence.CountPairs | src/matched-evidence.ts:102-104 | exactly the required pairs just completed are counted once more, and it fails exactly on an overflow of one of these |
| MatchedEvidence.MatchedIsCorpus | src/matched-evidence.ts:131-132 | traces of the corpus's lengths that agree with it action by action are the corpus |
| Acceptance.VerdictIsCorpus | src/acceptance.ts:37-53 | the evidence of a complete and exact replay of a corpus is judged by the corpus alone: met exactly if it covers every required action and pair, and what is listed as missing is exactly what the corpus lacks |
| Acceptance.AssessReplay | src/suite-runner.ts:49-59 | whatever a tracker for an announced corpus holds, the verdict is met or unmet only for a complete and certain replay, and then by whether the corpus covers the requirements |
| ReplayAcceptance.ReplayAndAssess | src/suite-runner.ts:205-221 | a replay and the verdict after it: met exactly if the replay completes and the corpus covers the requirements, unmet exactly if it completes and does not; and a completed replay sent one state for each action of the corpus and reports its numbers of traces and steps |
| ReplayRecording.Conservation | src/replay-report.ts:178-220 | whatever the recorder was told, reports are counted by action or dropped, consecutive reports by pair or dropped, all but a pending one are matched, both tables respect their bounds, and without drops the action table is the exact count |
| ReplayRecording.ReplayRecorder.Reported | src/replay-report.ts:190-208 | with its counters and maps updated in place, the recorder's books are those of everything it was told |
| ReplayCore.Replay | src/replay-core.ts:93-202 | the states sent are the computer's, threaded from an empty state at each initial message and from the last state within a trace; with observers or without; completion is reported exactly at the end message, with the right counts, and exactly when the tracker is complete and certain; without a tracker the messages and the computer alone decide; in the end the tracker is sealed |
| ReplayCore.OneStateEach | src/replay-core.ts:111-167 | one state for each initial and next message |
| ModuleReferences.DependencyTokens | src/spec.ts:35-71 | the index-and-depth scan yields the tokens of the recursive definition, in which nested comments, line comments and strings are consumed as units |
| ModuleReferences.CommentIsSkipped | src/spec.ts:40-53 | a block comment that closes contributes nothing, whatever it contains |
| ModuleReferences.ModuleRefs | src/spec.ts:73-92 | the index loop over tokens yields the references of the clause-by-clause definition, without builtin modules |
| SpecClosure.SpecFromFiles | src/spec.ts:128-172 | it succeeds exactly if every reachable module is readable with unique references and the count is within the limit; then the sources are the root and each other reachable module once, every module after its imports unless they depend on it, and imported by the root or by a module that comes later: the depth-first post-order that follows the references in order |
| TraceDifferences.EmptyIffAgree | src/lease-reduction.ts:418-442 | no difference is reported exactly if the trees agree, an absent member counting as the prototype's |
| TraceDifferences.NoDifferenceMeansSame | src/lease-reduction.ts:418-442 | two trees are the same exactly if no difference is reported and no two corresponding objects differ in owning `__proto__` |
| TraceDifferences.BorrowedPrototype | src/lease-reduction.ts:436-439 | two different trees without a reported difference |
| LeaseReduction.PathInjective | src/lease-reduction.ts:499 | a path names one input of one state |
| LeaseReduction.EditedLeaves | src/lease-reduction.ts:473-500 | in the edited trace every edited input is 1 and every other input is as it was |
| LeaseReduction.ChangesAreTheEdits | src/lease-reduction.ts:501-509 | the differences between the original and the edited trace are the declared paths, each once |
| LeaseReduction.Materialize | src/lease-reduction.ts:297-314 | it succeeds exactly if every edit is supported, none is repeated and each finds its action and value; then the changed paths are exactly the declared ones, sorted, so the last guard never fires |
| LeaseReduction.ApplyEdits | src/lease-reduction.ts:464-509 | the loop over accepted kinds of edits and the last guard fail exactly if some edit does not find its action and value |
| PrefixReduction.Reduce | src/reproduction-prefix-reducer.ts:184-403 | candidates are the prefixes from the whole trace down, each with the outcome of its round; the best is the shortest reproduced; the search stops exactly where and why the rounds say; "shortest" is claimed exactly if all prefixes were tried and every shorter one was validly replayed without reproducing |
| PrefixReduction.Try | src/reproduction-prefix-reducer.ts:215-369 | one round's record and its reason to stop, for every way validation and replay can end |

## Findings

Properties that one would expect and that do not hold of the code as it is, with the input
that shows it and the exact condition under which they do.

- **A state can have two canonical texts** (src/schedule-exploration.ts:21-32). Record fields
  are sorted by their UTF-8 bytes, and UTF-8 replaces every lone surrogate by the same three
  bytes. `ConfusedStates.LoneSurrogatesShow` gives the state; `ScheduleStateTexts.OneTextIffLegible`
  says exactly which states have one text. Observed in both orders, such a state is numbered
  twice in the coverage table.
- **A difference can go unreported** (src/lease-reduction.ts:436-439). Members are read with
  `record[key]`, so an absent `__proto__` reads as the prototype, which compares as an object
  without members. `TraceDifferences.BorrowedPrototype` gives two trees; `NoDifferenceMeansSame`
  is the exact condition. The declared edits never touch such a member, so `Materialize` is
  not affected.
- **The order of a literal's parts can show in a digest** (src/model-interface.ts:948-982). The
  decoder does not reject a record literal that repeats a field name, nor a map literal that
  repeats a key, at any depth, and sorting is stable, so such fields and entries stay in the
  order in which they were written. `SettledDescriptors.TwoTexts` gives two valid descriptors
  that are equal up to order and have different texts; `SettledDescriptors.OneTextIffSettled`
  is the exact condition for descriptors and `SettledLiterals.OneJsonIffSettled` for literals.
- **Wire texts are ambiguous** (src/protocol.ts:385-404, 436-472). A record whose only field
  is `#bigint` is written like an integer, and similarly for the other markers, for `tag` with
  `value` and for `proto_step`. `WireCodec.WireTextAmbiguous` gives the texts; `RoundTrip` is
  the exact condition, and `WalkedIsPlain` shows that values that came over the wire meet it.
- **A valid descriptor's own canonical text can be rejected** (src/model-interface.ts:448-516,
  1494-1497). Literals may nest 128 deep, the parser accepts 128 containers, and each level of a
  literal takes two or three. `DescriptorParsing.DeepKeysRejected` gives the descriptors;
  `CanonicalTextParses` is the exact condition. Such a descriptor is decoded from a value, gets
  a digest and is cached, but cannot be read from its text.

## Left out

- The scheduler factory, the creation of workers and its failures; operations called while another is in progress; error texts; the sizes of event rows, which are parameters.
- Wall-clock time: deadlines, budgets and cancellation are events that may come at any moment.
- A worker's decode error outside its message handler is an event of the controller alone and not of the composition of controller and workers.
- The runner is a function of the schedule and the input, each pair being run at most once. The categories of failed runs beyond passed and not passed, the byte budgets of evidence and coverage, and the decoding of observed states, which are outcomes of a sample.
- JSON numbers are exact here. The source reads them as doubles, so that 9007199254740993 and 9007199254740992 are one number there and two here; and -0 is read as 0.
- The enumeration order of integer-like property names, which JavaScript puts first whatever the order of insertion.
- Snapshots of cyclic values, accessors and other inputs that are not plain data; freezing.
- Protocol messages inside the wire decoder are recognised but not decoded.
- The decoder's limits are one predicate checked after decoding: which of several violations is reported first is not modelled.
- Version 1 contracts, negotiation requests and replies, registration.
- SHA-256: a digest is an arbitrary function of the canonical text, and the cache's codec is a parameter.
- UTF-8 bytes in comparisons are modelled by code points, with which they agree in order; the text decoder of the transport is a parameter, so a byte order mark is not modelled.
- MirrorConnection.Connection.Drive: poisoning a connection is one step, and errors are told apart only as far as the operations do.
- Requirements are checked without the optional set of known identifiers.
- Reading files, environment variables and real paths: the files and the lookup of names are given functions.
- LeaseReduction.Materialize: of the checks on a candidate only those on its edits; its schema, digests, trace index and occurrences are not modelled, nor are the later stages that replay the result.
- PrefixReduction.Reduce: time limits and the settling of cleanup are outcomes of a round; eligibility is one given condition.
- The rendering of reports and mismatch messages, the command line, the explorer client and the asynchronous job handles.
