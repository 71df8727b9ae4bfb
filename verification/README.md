# Verified models of transcribe.cpp

Two parts of the repository are modelled in Dafny, each with the properties its callers rely on.

**The session machine.** `include/transcribe.h` promises a streaming and batch contract; `src/transcribe-asr.cpp`,
`src/transcribe-batch-util.cpp` and `src/transcribe-model.cpp` implement it. `Dispatch` gives every public call as a
transition of the whole session state, for any behaviour of the family hook it calls (any result, any row counts, any
status, any exception). `Sessions` is the mutable session object; each of its methods updates fields in place the way
the C++ does and is proved equal to its transition. `StreamText` is the text committer (window of hypotheses, UTF-8
floors, append-only buffer). `CallEffects` says of every public call what it leaves behind and what each refusal says,
without the transitions' own terms; `StreamRuns`, `StreamArguments` and `BatchRuns` are the theorems about whole runs
and batches, from the arguments of the caller on.

**The converters.** `Vocabulary`, `DottedNames`, `Rename` and `HfToNemo` model the checkpoint rename of
`scripts/convert-parakeet.py`; `ParakeetTables`, `EmissionPlan` and `Emission` its tensor emission, and `HfCheckpoint`
puts the two together; `HfKeys` and `PlainTables` write the names of both out as strings, and `PredictorConversion`
follows the predictor through a whole conversion. `AttentionMenu` and `BpeVocabulary` are its menu and vocabulary
handling. `Linear`, `BatchNormFold`, `WeightLayout`, `Lstm` and `MelFilterbank` are the algebraic rewrites.
`PythonTables`, `TokenTables` and `CtcTokens` are the dense tokenizer tables. `Metadata`, `TrailerAudit` and `Bundle`
are the GGUF key layout, its audit and the multitalker bundle. `Sequences`, `Sorting`, `Utf8` and `Options` are shared.

Readings of the source that the models rest on:

- A family hook is an arbitrary outcome: an exit (status or exception), what it wrote to the session, what it wrote to
  the caller's update. Families that own their prefix rule (token ids, native boundaries) are covered through the row
  counts they write.
- The abort callback may answer differently at every poll. A grouped family has two loops: over the slices of one
  shared encoder pass, which sees well-formed inputs only, and one utterance after the other for every other batch.
- Begin and run arguments are reduced to what the dispatcher decides on: struct sizes, policy, agreement, and one
  status for the parameter and family checks that precede the clearing of the result.
- Floating-point numbers are reals. Square root, logarithm and gate functions are arbitrary functions with only the
  facts needed (positive on positives, strictly increasing, none).
- A regular-expression rule is read component by component between dots; a rule with a group of suffixes of different
  depth is written as consecutive rules.

## Where the code and its documentation differ

Each of these is a lemma with a concrete witness or an exact condition.

- Committed text is append-only in storage, but a reader sees it only while the session holds a result: a failing feed
  whose hook clears its result first takes committed bytes away (`StreamRuns.ReadableCommittedAcrossCall`,
  `StreamRuns.FailedFeedHidesCommitted`).
- The revision counter is said to advance for rows, row counts and lifecycle transitions as well as for texts. The
  dispatcher advances it for texts only, unless the hook counts for itself or reports a change through an update that
  the caller need not pass. So on a settled stream token rows can change (`StreamRuns.TokenRowsMoveSilently`), row
  counts can move (`StreamRuns.RowHintsMoveSilently`) and a finalize can turn ACTIVE into FINISHED
  (`StreamRuns.FinalizeMovesSilently`), all at one revision; and a hook that fails after rewriting its hypothesis
  changes even the texts. `StreamRuns.RevisionAcrossCall` says for one call exactly when the counter misses a change
  and exactly when it goes back; `StreamRuns.EqualRevisionEqualSnapshots` says for which runs equal revisions show
  equal snapshots, for a caller that reads texts only and for one that reads everything.
- Passing the optional update struct can change the revision (`StreamRuns.UpdateArgumentAffectsRevisionOnly`).
- Row counts are said to be monotonic; they are exactly while hooks keep them so and no successful ON_FINALIZE feed
  zeroes what the begin hook wrote (`StreamRuns.RowMarksAcrossCall`, `StreamRuns.RowMarksOverRun`).
- A single run that is rejected for its parameters keeps the result slot but has already dropped the batch results
  (`BatchRuns.RejectedRunDropsBatch`, `BatchRuns.RejectedOfflineCallIsAtomic`); begin and reset leave old batch
  results behind and break their alias with the result slot (`BatchRuns.StaleBatchSurvivesReset`).
- An utterance that aborts ends the serial decode loop but not the grouped ones, which go on to the next abort poll or
  progress emission of theirs that stops them. With an abort callback that fires once the grouped loop decodes
  utterances that the serial one discards, and reports OK where the serial one reports ABORTED
  (`BatchRuns.OneAbortSeparatesThem`); `BatchRuns.GroupedModelAgainstSerial` says exactly when two batch calls show
  the same slots and status.
- A reset clears every result but leaves the truncation and repetition flags standing
  (`StreamRuns.ResetIsFreshExcept`).
- Raising the agreement is said to commit later. It need not: after hypotheses a, b, b agreement 1 holds a and
  agreement 2 holds b (`StreamText.ContradictionBreaksOrder`); and after a cut-off code point and twice the whole one
  agreement 1 holds the lead byte and agreement 2 the code point, although no hypothesis contradicts either
  (`StreamText.TruncatedCodePointBreaksOrder`). `StreamText.LargerAgreementCommitsLaterIff` says exactly when it does
  for well-formed hypotheses, `StreamText.AlwaysBehindIff` for any bytes.
- The tentative text is said to be the suffix behind `raw_tentative_start_bytes`. It is exactly when that offset is a
  code point start of the current hypothesis (`StreamRuns.TentativeIsSuffixIff`); else it starts earlier
  (`StreamRuns.TentativeStartsEarlier`).
- A hypothesis that ends inside a code point can freeze the committed text for good
  (`StreamText.TruncatedCodePointFreezes`).
- The rename of a ParakeetForTDT checkpoint lets feed-forward and convolution biases through, which turn on the
  emission of all encoder biases; but it lets no attention bias through, so such a file always ends in a missing
  tensor (`HfCheckpoint.BiasedFileNeverConverts`).
- The contiguity check of the rebuilt vocabulary accepts negative ids, which Python counts from the end
  (`BpeVocabulary.BijectionIff`, `BpeVocabulary.NegativeIdAccepted`).
- An attention menu whose first entry is malformed leaves the primary pair at full attention
  (`AttentionMenu.FirstChoiceIsPrimaryIff`).
- Looking a special token up in the base vocabulary can name a row that an added token or the audio placeholder has
  replaced (`TokenTables.BaseFirstLookupIff`).

## Model

| member | source | states |
|---|---|---|
| `Utf8.ComputeFloorBoundary` | src/transcribe-asr.cpp:447-455 | the loop finds the last code point start at or before a position |
| `Utf8.ComputeCommonPrefixBytes` | src/transcribe-asr.cpp:457-464 | the loop finds the longest common prefix, floored to a code point start |
| `StreamText.ComputeSharedBytes` | src/transcribe-asr.cpp:533-537 | the loop over the window yields the greatest prefix length shared by all its texts |
| `StreamText.ComputeTokenPrefixBytes` | src/transcribe-asr.cpp:470-491 | the loop that joins the token rows and measures them against the hypothesis; what it measures is the next row |
| `StreamText.TokenPrefixIs` | src/transcribe-asr.cpp:470-491 | for every count: the bytes are all of the joined rows when the hypothesis begins with them, otherwise the most whole code points that agree; a leading space that the hypothesis dropped is dropped |
| `StreamText.TokenRowsOffer` | src/transcribe-asr.cpp:470-491 | floored as every append floors it, the offer is the greatest prefix of the rows that the hypothesis begins with and that ends at a code point start |
| `StreamText.AppendInstallsPrefix` | src/transcribe-asr.cpp:555-575 | an append either does nothing or makes the committed text exactly the candidate prefix of the current hypothesis, and which of the two |
| `StreamText.DisplayReconstructs` | include/transcribe.h:2242-2271 | committed + tentative text equals the full text if and only if the committed text is a prefix that ends at a code point start |
| `StreamText.WindowFindsGreatest` | src/transcribe-asr.cpp:510-538 | for any bytes the window loop finds the longest prefix that all texts share among those cut at a code point start of the oldest and the newest |
| `StreamText.WellFormedWindowAgrees` | src/transcribe-asr.cpp:510-538 | for well-formed texts that is the greatest whole-code-point prefix of all of them |
| `StreamText.HistoryIsWindow` | src/transcribe-asr.cpp:526-532 | the deque always holds the last n hypotheses |
| `StreamText.IncrementalRefinesDeclared` | include/transcribe.h:2155-2164 | for every sequence of well-formed hypotheses and every agreement n the in-place committer computes the declared rule |
| `StreamText.CommittedWasShared` | include/transcribe.h:2116-2124 | for any bytes: everything committed lay in a prefix shared by n consecutive hypotheses |
| `StreamText.AlwaysBehindIff` | include/transcribe.h:2270-2271 | for any bytes and any two agreements: one run has committed a prefix of the other at every moment exactly when whatever it takes the other already holds, or continues to and is offered as much |
| `StreamText.LargerAgreementCommitsLaterIff` | include/transcribe.h:2270-2271 | for all well-formed hypotheses: the m-run (m ≥ n) has committed a prefix of the n-run exactly when it never took a text that contradicts what the n-run held |
| `StreamText.LargerAgreementCommitsLaterInCode` | include/transcribe.h:2270-2271 | in particular: while no hypothesis, all well-formed, contradicts the n-run, the m-run (m ≥ n) has always committed a prefix of it |
| `StreamText.ContradictionBreaksOrder` | include/transcribe.h:2261-2271 | a run with a contradicting hypothesis in which the larger agreement commits other text |
| `StreamText.TruncatedCodePointBreaksOrder` | include/transcribe.h:2261-2271 | a run without any contradiction, but with a cut-off code point, in which the larger agreement commits more |
| `StreamText.TruncatedCodePointFreezes` | src/transcribe-asr.cpp:555-575 | a truncated code point that agrees three times is committed and, whatever follows, never completed |
| `Sessions.StreamUpdate.Prepare` | src/transcribe-asr.cpp:1122-1134 | too small an update is refused untouched, any other is zeroed up to its declared size |
| `Sessions.Session.ClearResult` | src/transcribe-model.cpp:27-54 | resets exactly the per-utterance fields; lifecycle, batch results and flags survive |
| `Sessions.Session.GenericTextCandidate` | src/transcribe-asr.cpp:510-538 | the deque loop refines the window function |
| `Sessions.Session.FamilyCandidateBytes` | src/transcribe-asr.cpp:493-508 | which row count decides the family candidate |
| `Sessions.Session.AppendCommittedRawPrefix` | src/transcribe-asr.cpp:555-575 | in-place append of the committed buffer |
| `Sessions.Session.FinalizeCommittedText` | src/transcribe-asr.cpp:577-600 | the three ways a finalize treats the committed buffer |
| `Sessions.Session.ApplyTextPolicy` | src/transcribe-asr.cpp:607-644 | new text view of a feed or finalize, and truthful change flags |
| `Sessions.Session.PublishDelta` | src/transcribe-asr.cpp:667-691 | revision bump and update fields |
| `Sessions.Session.Begin` | src/transcribe-asr.cpp:940-1116 | the whole new state and status of begin, at every failure checkpoint, in place; the effect on the arguments is `CallEffects.BeginEffect` |
| `Sessions.Session.Feed` | src/transcribe-asr.cpp:1136-1188 | the whole new state, status and update of a feed |
| `Sessions.Session.Finalize` | src/transcribe-asr.cpp:1190-1227 | the whole new state, status and update of a finalize |
| `Sessions.Session.Reset` | src/transcribe-asr.cpp:1229-1255 | the whole new state of a reset |
| `Sessions.Session.RunOneInner` | src/transcribe-asr.cpp:1337-1482 | one utterance: rejections change nothing, everything past them clears first |
| `Sessions.Session.CompleteWithProgress` | src/transcribe-asr.cpp:1495-1505 | the final progress emission turns OK, and only OK, into ABORTED on cancel |
| `Sessions.Session.Run` | src/transcribe-asr.cpp:1507-1539 | the whole new state and status of a single run, in place; the effect under any cancel is `CallEffects.RunEffect` |
| `Sessions.Session.PadBatchResultsAborted` | src/transcribe-asr.cpp:1555-1561 | the padding loop fills up to n slots and keeps what is there |
| `Sessions.Session.RunBatchSerial` | src/transcribe-batch-util.cpp:210-261 | the serial loop, with its polls, captures and early exits |
| `Sessions.Session.DecodeBatchSlices` | src/transcribe-batch-util.cpp:177-208 | the slice loop of a grouped family |
| `Sessions.Session.DecodeOneByOne` | src/arch/parakeet/model.cpp:2133-2147 | the loop a grouped family falls back to |
| `Sessions.Session.RunBatch` | src/transcribe-asr.cpp:1582-1738 | the whole new state and status of a batch |
| `CallEffects.BeginRefusals` | src/transcribe-asr.cpp:940-1058 | which status a refused begin gives, by the first argument that is wrong, and that it changes nothing |
| `CallEffects.BeginEffect` | src/transcribe-asr.cpp:1060-1116 | an accepted begin stores the agreement and the policy that the caller asked for, in an otherwise fresh session with what the hook wrote; the status is the hook's |
| `CallEffects.FeedRefusals` | src/transcribe-asr.cpp:1136-1164 | which status a refused feed gives, with the session untouched and the update emptied |
| `CallEffects.FeedEffect` | src/transcribe-asr.cpp:1136-1188 | every field but the texts after an accepted feed, the revision and the hidden row counts included, whether or not the hook failed |
| `CallEffects.FinalizeRefusals` | src/transcribe-asr.cpp:1190-1204 | which status a refused finalize gives, with the session untouched and the update emptied |
| `CallEffects.FinalizeEffect` | src/transcribe-asr.cpp:1190-1227 | every field after an accepted finalize, the committed text under either kind of policy included |
| `CallEffects.UpdateCarriesProgress` | include/transcribe.h:2205-2211 | the progress numbers the caller reads are the hook's, hidden only for ON_FINALIZE feeds, and a failing call reports what the hook reported |
| `CallEffects.RunRefusals` | src/transcribe-asr.cpp:1507-1538 | which status a refused run gives, and that it dropped the batch results unless the audio was refused |
| `CallEffects.RunEffect` | src/transcribe-asr.cpp:1495-1539 | an accepted run under any cancel: the hook's result on a fresh session; OK turns ABORTED exactly on a cancel, which alone raises the aborted flag |
| `CallEffects.BatchRefusals` | src/transcribe-asr.cpp:1582-1660 | which status a refused batch gives, and that it changes nothing |
| `CallEffects.BatchCancelledAtOnce` | src/transcribe-asr.cpp:1686-1691 | a cancel before the first utterance: n ABORTED slots on a fresh session |
| `CallEffects.BatchHookEffect` | src/transcribe-asr.cpp:1694-1712 | a family's own batch: its results padded after an abort, utterance 0 in the result slot, OK turned ABORTED exactly on a final cancel |
| `StreamRuns.ResetIsFreshExcept` | src/transcribe-asr.cpp:1229-1255 | a reset session is a fresh one, except for batch results and two flags |
| `StreamRuns.RestartForgetsThePast` | src/transcribe-asr.cpp:1061-1070 | an accepted begin, run or batch does the same whatever an earlier stream or call left behind |
| `StreamRuns.ReachableInv` | include/transcribe.h:2488-2496 | over every sequence of calls: a non-OK last status is observable exactly in FAILED, and the committer's state is consistent |
| `StreamRuns.CommittedIsAppendOnly` | include/transcribe.h:2245-2255 | between restarts the stored committed text only gains bytes, whatever hooks do and whichever calls fail |
| `StreamRuns.ReadableCommittedAcrossCall` | include/transcribe.h:2245-2255 | the text a caller reads is append-only across a call exactly unless something was readable and a hook leaves no result |
| `StreamRuns.ReadableCommittedOverRun` | include/transcribe.h:2245-2255 | over every run between restarts it is append-only exactly when no call does that |
| `StreamRuns.FailedFeedHidesCommitted` | src/transcribe-asr.cpp:1299-1326 | a failing feed after which readable committed bytes are gone |
| `StreamRuns.FinalizeInstallsFinalText` | include/transcribe.h:2272-2277 | a successful finalize empties the tentative text and installs the final text unless it contradicts what is committed; without a result it keeps what is committed and shows nothing |
| `StreamRuns.StreamCallIsAtomic` | include/transcribe.h:2352-2383 | a stream call fails before its hook and changes nothing, or fails in it and ends FAILED with that status, or succeeds |
| `StreamRuns.RevisionAcrossCall` | include/transcribe.h:2180-2203 | for one call: exactly when a change of the texts, or of anything observable, leaves the counter as it was, and exactly when the counter goes back |
| `StreamRuns.EqualRevisionEqualSnapshots` | include/transcribe.h:2460-2471 | over every run between restarts, failing calls included: moments of equal revision look alike and the counter never goes back exactly when no call moves silently and no hook lowers it |
| `StreamRuns.UpdateMirrorsRevision` | include/transcribe.h:2180-2218 | a successful call's update agrees with the session, field by field |
| `StreamRuns.UpdateArgumentAffectsRevisionOnly` | include/transcribe.h:2220-2222 | feed and finalize with and without an update lead to the same state except for the revision, which differs exactly when a successful hook reports a change that it does not count and no text shows |
| `StreamRuns.AgreementOneSettles` | include/transcribe.h:2155-2164 | with agreement 1 the first hypothesis leaves nothing tentative |
| `StreamRuns.TokenRowsMoveSilently` | include/transcribe.h:2460-2471 | token rows can change under an equal text and an unchanged revision |
| `StreamRuns.RowHintsMoveSilently` | include/transcribe.h:2460-2471 | row counts can move under an unchanged revision |
| `StreamRuns.FinalizeMovesSilently` | include/transcribe.h:2195-2203 | a finalize can close the stream under an unchanged revision |
| `StreamRuns.RowMarksAcrossCall` | include/transcribe.h:2051-2058 | across a call row counts are high-water marks exactly when the hook keeps them so and none above zero is hidden |
| `StreamRuns.RowMarksOverRun` | include/transcribe.h:2051-2058 | over every run between restarts the counts only rise exactly when every call keeps them |
| `StreamRuns.ClampedMarksAreBoundaries` | include/transcribe.h:2053-2056 | in every reachable state the counts clamped to the current rows are valid boundaries, and the token one still stands for the same text |
| `StreamRuns.DisplayAfterFeed` | include/transcribe.h:2253-2271 | after a successful feed, what a UI renders is the hypothesis exactly when the committed text is a prefix of it cut at a code point start |
| `StreamRuns.TentativeIsSuffixIff` | include/transcribe.h:2253-2256 | after a successful feed the tentative text is the suffix behind the offset the caller reads exactly when that offset is a code point start of the hypothesis |
| `StreamRuns.TentativeStartsEarlier` | include/transcribe.h:2253-2256 | a hypothesis for which it starts earlier |
| `StreamRuns.StreamCommitsFedHypotheses` | src/transcribe-asr.cpp:607-644 | in every reachable active stream the committer's state is that of the hypotheses fed since begin |
| `StreamRuns.CommittedRestsOnAgreement` | include/transcribe.h:2155-2164 | over all runs and hooks, committed text is a prefix shared by n consecutive fed hypotheses |
| `StreamRuns.CommittedIsDeclared` | include/transcribe.h:2155-2164 | over all runs with well-formed hypotheses it is exactly the declared text |
| `StreamRuns.LargerAgreementStream` | include/transcribe.h:2270-2271 | two streams fed the same well-formed hypotheses, whatever else happened to them: exactly when the one with the larger agreement has committed a prefix of the other |
| `StreamRuns.DisplayIsAlwaysWellFormed` | include/transcribe.h:2253-2268 | over all runs with well-formed hypotheses what a UI renders never splits a code point, even at an incoherent seam |
| `StreamArguments.StreamObeysCaller` | src/transcribe-asr.cpp:1061-1071 | in every reachable state that is not idle, policy and agreement are those of the last accepted begin |
| `StreamArguments.OnFinalizeCommitsNothingEarly` | include/transcribe.h:2119-2121 | a caller who asked for policy 1 sees no committed text at any moment of a stream in progress |
| `StreamArguments.CallerGetsDeclaredText` | include/transcribe.h:2155-2164 | one who asked for another, on a family that leaves the prefix to the library, gets the declared text with the agreement asked for, 3 for 0 |
| `StreamArguments.CallerGetsAgreement` | include/transcribe.h:2155-2164 | for any bytes: a prefix of as many consecutive hypotheses as asked for |
| `StreamArguments.FamilyFeedCommits` | src/transcribe-asr.cpp:493-508 | a feed on a family-owned boundary, in every reachable stream: the greatest prefix of the family's claim (token rows, else the whole text when all words or segments are counted) becomes the committed text when it extends it at a code point start |
| `StreamArguments.FamilyFeedCommitsRows` | src/transcribe-asr.cpp:470-508 | in particular, n token rows that extend the committed text are committed to the byte |
| `StreamArguments.FamilyCommitsClaims` | src/transcribe-asr.cpp:493-508 | over every run the committed text is what the claims since begin make of an empty one |
| `BatchRuns.ExecutedIsFirstStop` | src/transcribe-batch-util.cpp:217-258 | the number of executed utterances is the first abort or cancel point and nothing else |
| `BatchRuns.SerialBatchSlots` | include/transcribe.h:1809-1831 | an accepted batch has n slots: what each utterance gives alone, then ABORTED; its status and its alias |
| `BatchRuns.AloneIs` | src/transcribe-batch-util.cpp:228-244 | what one utterance contributes: partial results are kept, an empty slot otherwise |
| `BatchRuns.SerialBatchFlags` | src/transcribe-batch-util.cpp:210-261 | the truncated flag of a serial batch is up exactly when an executed utterance was cut short; exactly when the aborted and repetition flags are |
| `BatchRuns.SlotEqualsSingleRun` | include/transcribe.h:1770-1779 | a slot shows what a single run of the same audio shows |
| `BatchRuns.MalformedAlone` | include/transcribe.h:1767-1774 | a malformed single run changes nothing; as a batch it replaces every old result by one INVALID_ARG slot, and exactly when the accessors notice |
| `BatchRuns.GroupedAgainstSerial` | src/transcribe-batch-util.cpp:177-261 | how many slots the serial loop and either grouped loop collect, that the common ones look the same, and when the collections are equal |
| `BatchRuns.GroupedFlags` | src/transcribe-batch-util.cpp:177-208 | the flags a grouped loop leaves: those of the last decoded utterance, and the aborted one when it was stopped |
| `BatchRuns.GroupedBatchAgainstSerial` | src/transcribe-asr.cpp:1699-1735 | after handshake and padding, for both grouped loops: exactly when grouped and serial batches show the same slots, exactly when they return the same status, and that the result slot always shows the same |
| `BatchRuns.GroupedBatchIsDecode` | src/transcribe-asr.cpp:1694-1712 | a batch call whose hook runs one of the loops is that loop, settled |
| `BatchRuns.GroupedModelAgainstSerial` | src/transcribe-asr.cpp:1582-1738 | the same comparison for two whole batch calls, on a model without a batch hook and on one whose hook runs a grouped loop |
| `BatchRuns.OneAbortSeparatesThem` | src/transcribe-batch-util.cpp:185-206 | an abort callback that fires once: two ABORTED slots in series, one and a decoded utterance when grouped |
| `BatchRuns.BatchHasOneSlotEach` | include/transcribe.h:2833-2843 | a batch that returns OK or ABORTED has n slots and its alias, on every path |
| `BatchRuns.OfflineCallsKeepMirror` | src/transcribe-session.h:126-135 | run and batch calls keep the single-result slot equal to utterance 0 |
| `BatchRuns.StaleBatchSurvivesReset` | src/transcribe-session.h:132-135 | begin and reset keep old batch results, and for each exactly when the alias survives |
| `BatchRuns.RejectedRunDropsBatch` | src/transcribe-asr.cpp:1524-1526 | exactly when a rejected run is invisible to the batch accessors |
| `BatchRuns.RejectedOfflineCallIsAtomic` | src/transcribe-asr.cpp:1524-1538 | exactly which rejected offline calls leave the session as it was |
| `Vocabulary.ParakeetIsLegible` | scripts/convert-parakeet.py:644-664 | the words of the tensor names are readable back, plain, and none continues an indexed one |
| `DottedNames.ValueOfDecimal` | scripts/convert-parakeet.py:2099-2105 | decimal rendering of an index is undone by reading it |
| `DottedNames.JoinInjective` | scripts/convert-parakeet.py:644-664 | joining dotless components with dots is injective |
| `DottedNames.RenderInjective` | scripts/convert-parakeet.py:2131-2143 | different names, with any layer indices, are different strings |
| `HfToNemo.HfToNemoKey` | scripts/convert-parakeet.py:667-671 | the loop returns the rewrite of the first matching rule, or the unmapped error |
| `HfToNemo.NameTellsRule` | scripts/convert-parakeet.py:644-664 | a source name determines the only rule that can match it, and a renamed one the only rule that can have produced it |
| `HfToNemo.RulesAreDisjoint` | scripts/convert-parakeet.py:644-664 | no name is matched by two rules: first match is only match |
| `HfToNemo.RenameIsInjective` | scripts/convert-parakeet.py:667-671 | no two tensor names are renamed to the same one, for all layer indices and free suffixes |
| `HfKeys.RenamedExactly` | scripts/convert-parakeet.py:644-671 | the whole rename as a plain table of strings: for every two strings, one is renamed to the other exactly when the table says so |
| `HfToNemo.LoadStateDict` | scripts/convert-parakeet.py:833-843 | the loader without a duplicate check keeps every tensor under a name of its own |
| `HfCheckpoint.RenameDeliversPlan` | scripts/convert-parakeet.py:644-671 | every tensor name that the emission of a ParakeetForTDT model reads, for every layer count, with or without biases, is what the rename makes of that tensor's checkpoint name, except for attention biases, which it refuses |
| `HfCheckpoint.AttentionBiasNeverDelivered` | scripts/convert-parakeet.py:644-671 | no checkpoint name whatsoever is renamed to that of an attention bias |
| `HfCheckpoint.LoadedIff` | scripts/convert-parakeet.py:833-843 | the loaded state dict has such a tensor exactly when the file has it, and never an attention bias |
| `HfCheckpoint.MissingExactlyWhenAbsent` | scripts/convert-parakeet.py:2063-2093 | converting the loaded dict reports a missing tensor exactly when the file lacks one the configuration calls for |
| `HfCheckpoint.BiasedFileNeverConverts` | scripts/convert-parakeet.py:1762-1777 | with use_bias resolved from the file, nothing is missing exactly when the file is complete and its feed-forward layers carry no bias |
| `ParakeetTables.NameTellsGroup` | scripts/convert-parakeet.py:1412-1562 | a GGUF or checkpoint name determines its table and layer |
| `ParakeetTables.RowNamesDiffer` | scripts/convert-parakeet.py:1412-1562 | within a table no name repeats, on either side |
| `PlainTables.RowInText` | scripts/convert-parakeet.py:1474-1562 | every row outside the encoder blocks reads and writes the strings of a plain table |
| `PlainTables.LayerRowIsShort` | scripts/convert-parakeet.py:1410-1472 | every row of a block is copied to the name that says the same word for word, in the file's vocabulary |
| `EmissionPlan.NamesDistinctIff` | scripts/convert-parakeet.py:2095-2166 | emitted names, and names read, are pairwise distinct exactly when no speaker-kernel layer is listed twice |
| `EmissionPlan.PlanIs` | scripts/convert-parakeet.py:2095-2166 | exactly which rows a configuration emits, table by table and row by row |
| `EmissionPlan.GroupsInOrder` | scripts/convert-parakeet.py:2095-2166 | and in which order |
| `EmissionPlan.PlanHasExpectedSize` | scripts/convert-parakeet.py:2168-2199 | for every configuration the loops emit as many tensors as the closed form, and read one more per LSTM layer |
| `Emission.Emitter.AddCopy` | scripts/convert-parakeet.py:2063-2071 | one emission: missing tensor, or written, consumed and counted |
| `Emission.Emitter.AddCombined` | scripts/convert-parakeet.py:2073-2093 | one summed emission with its missing-tensor and shape errors; that it sums is in `Emission.EmissionIsExact` |
| `Emission.Emitter.EmitBlock` | scripts/convert-parakeet.py:2101-2120 | one encoder block: table, running statistics, biases |
| `Emission.Emitter.EmitHead` | scripts/convert-parakeet.py:2122-2147 | CTC head, or embedding, LSTM layers and joint network |
| `Emission.Emitter.EmitSpeakers` | scripts/convert-parakeet.py:2160-2166 | the speaker kernels of the configured layers |
| `Emission.Emitter.Convert` | scripts/convert-parakeet.py:2095-2204 | all loops together run the plan, and the count check never fails |
| `Emission.RunStopsAtFirstTrouble` | scripts/convert-parakeet.py:2063-2093 | a conversion that fails reports the first row in trouble |
| `Emission.TroubleNames` | scripts/convert-parakeet.py:2063-2093 | what the reported failure says: a tensor that the checkpoint lacks, or two that differ in shape |
| `Emission.ConvertsIff` | scripts/convert-parakeet.py:2063-2093 | a conversion succeeds exactly when every row finds its tensors, summed ones in one shape |
| `Emission.EmissionIsExact` | scripts/convert-parakeet.py:2063-2204 | a conversion that succeeds wrote under every target the checkpoint's tensor or, element by element, the sum of the two; counts right, names distinct exactly as above, and consumed tensors = emitted + LSTM layers |
| `BatchNormFold.NormalizeIsAffine` | scripts/convert-ecapa_tdnn.py:255-259 | batch norm is x * scale + shift |
| `BatchNormFold.FoldPreserves` | scripts/convert-ecapa_tdnn.py:262-266 | the folded linear map computes linear(batch norm(x)) |
| `BatchNormFold.ChainPreserved` | scripts/convert-ecapa_tdnn.py:376-387 | so does a chain of activations, batch norms and linear maps of any length and widths |
| `BatchNormFold.LastStageComputes` | scripts/convert-ecapa_tdnn.py:250-266 | what the last stage of the chain computes: the linear map of the activated input, each place at its distance from the mean in standard deviations |
| `BatchNormFold.FoldAll` | scripts/convert-ecapa_tdnn.py:379-389 | the converter's loop produces such a chain |
| `WeightLayout.SplitColumns` | scripts/convert-ecapa_tdnn.py:346-349 | the loop cuts part k's columns |
| `WeightLayout.SumOfPartsIsPrefix` | scripts/convert-ecapa_tdnn.py:346-349 | the parts together are the weight without the columns the floor division leaves over |
| `WeightLayout.SplitPreserves` | scripts/convert-ecapa_tdnn.py:333-349 | when the parts divide the columns, the sum over parts equals the weight on the concatenated input |
| `WeightLayout.LosslessIff` | scripts/convert-ecapa_tdnn.py:346-349 | the parts determine the weight exactly when their number divides the columns |
| `WeightLayout.ChunkRecovers` | scripts/convert-granite5_ctc.py:719-734 | halving a stack gives its two members back exactly when they are equally long or the first is one longer |
| `WeightLayout.FusedProjects` | scripts/convert-granite5_ctc.py:719-734 | the fused product halves into keys and values, and its row blocks into the two weights |
| `WeightLayout.FusedIff` | scripts/convert-granite5_ctc.py:728-731 | fusing is refused exactly when the shapes differ |
| `Lstm.StackPreserved` | scripts/convert-parakeet.py:2127-2143 | one time step through any stack of layers is unchanged by collapsing the biases |
| `Lstm.RunPreserved` | scripts/convert-parakeet.py:2073-2093 | so are all hidden and cell states over any input sequence, depth and width |
| `PredictorConversion.LstmLayerWritten` | scripts/convert-parakeet.py:2127-2143 | over a whole successful conversion: the tensors under the names of LSTM layer i are its two weights and the elementwise sum of its two biases |
| `PredictorConversion.ConvertedPredictorComputesTheSame` | scripts/convert-parakeet.py:2127-2143 | whatever is read back from the file as the predictor reaches the states of the checkpoint's two-bias one, over any input sequence |
| `MelFilterbank.RowIsPartition` | scripts/convert-medasr.py:179-190 | for any strictly increasing edges: weights in [0,1], at most two positive and adjacent, total at most 1, exactly 1 between first and last centre and nowhere else |
| `MelFilterbank.FilterbankIsPartition` | scripts/convert-medasr.py:155-191 | so is every row of the bank, for any number of bands and bins; the padded first row is zero |
| `MelFilterbank.EdgesAreEven` | scripts/convert-medasr.py:176-181 | the edges go from the lower to the upper mel, both included, in equal steps |
| `MelFilterbank.BinsAreEven` | scripts/convert-medasr.py:172-174 | the bins go from 0 to half the sample rate, both included, in equal steps |
| `MelFilterbank.FilterbankIsHats` | scripts/convert-medasr.py:161-191 | every weight: filter j is a hat of height 1 on step j + 1, one step wide on either side |
| `MelFilterbank.FilterbankCovers` | scripts/convert-medasr.py:161-191 | a bin past the first has a positive weight exactly strictly between the two frequencies, and total 1 exactly at least one step inside both |
| `Sorting.StableSortIsStable` | scripts/convert-parakeet.py:1720 | sorted by key, same elements, equal keys in old order |
| `AttentionMenu.CollectChoices` | scripts/convert-parakeet.py:1025-1029 | the loop keeps the well-formed entries in order |
| `AttentionMenu.MenuIsRead` | scripts/convert-parakeet.py:980-1032 | a well-formed menu is read as it stands, and its first pair is the primary one |
| `AttentionMenu.Hyperparameters.NormalizeMenu` | scripts/convert-parakeet.py:1717-1728 | in-place reordering of the menu and the primary pair |
| `AttentionMenu.NormalizedIsStable` | scripts/convert-parakeet.py:1707-1720 | the menu is a stable permutation with falling right context |
| `AttentionMenu.OtherStylesAreLeftAlone` | scripts/convert-parakeet.py:1717-1719 | any other style, and any menu of less than two, is left alone with its primary pair |
| `AttentionMenu.FirstChoiceIsPrimaryIff` | scripts/convert-parakeet.py:1708-1712 | the first choice is the primary pair, with the exact exception |
| `AttentionMenu.MalformedFirstEntryBreaksIt` | scripts/convert-parakeet.py:980-1032 | a menu that shows the exception |
| `AttentionMenu.WriteFlat` | scripts/convert-parakeet.py:1880-1884 | the loop writes left and right in turn |
| `AttentionMenu.PairsOfFlatten` | scripts/convert-parakeet.py:1875-1884 | pairwise reading undoes flattening |
| `AttentionMenu.FlattenOfPairs` | scripts/convert-parakeet.py:1875-1884 | flattening undoes pairwise reading |
| `PythonTables.NoHoleIff` | scripts/convert-parakeet.py:690-694 | n writes into n slots leave no hole exactly when no two hit the same slot |
| `BpeVocabulary.LoadVocabulary` | scripts/convert-parakeet.py:685-699 | the loading loops and checks, in order, with their errors |
| `BpeVocabulary.TableAcceptedIff` | scripts/convert-parakeet.py:690-694 | the hole check passes exactly when the ids, negative ones counted from the end, are in range and distinct |
| `BpeVocabulary.BijectionIff` | scripts/convert-parakeet.py:690-694 | the ids are a bijection onto 0..n-1 exactly when the check passes and none is negative |
| `BpeVocabulary.LoadAcceptedIff` | scripts/convert-parakeet.py:685-699 | exactly which files are accepted, and what each refusal means |
| `BpeVocabulary.FirstMergedIs` | scripts/convert-parakeet.py:695-698 | the first merged piece is the one behind the added ids other than the blank |
| `BpeVocabulary.NegativeIdAccepted` | scripts/convert-parakeet.py:690-694 | a file with a negative id that passes |
| `BpeVocabulary.LoadInvertsVocabulary` | scripts/convert-parakeet.py:685-705 | every accepted entry is found at its id, and so is the unknown piece |
| `BpeVocabulary.PiecesDistinctIff` | scripts/convert-parakeet.py:688-692 | the rows of an accepted table hold distinct texts exactly when no key of the vocabulary repeats |
| `BpeVocabulary.AddedIdsAreFirst` | scripts/convert-parakeet.py:695-698 | accepted added ids are exactly the first ones |
| `BpeVocabulary.ScoresRecoverOrder` | scripts/convert-parakeet.py:707-708 | rebuilt scores fall strictly exactly behind the first merged piece |
| `BpeVocabulary.ExtractTokenizer` | scripts/convert-parakeet.py:905-953 | the payload: pieces in id order, scores, types, and the blank at id n |
| `BpeVocabulary.TypeByText` | scripts/convert-parakeet.py:898-934 | the type of a row by its text: the unknown piece, a language tag such as <en-US>, or plain |
| `TokenTables.OverlaidHoldsLastWrite` | scripts/convert-moss.py:180-184 | every id holds its last writer's entry |
| `TokenTables.BuildArrays` | scripts/convert-granite.py:242-257 | the dense arrays: last writers, fillers in the holes, refusal of ids that do not fit |
| `TokenTables.FillersDiffer` | scripts/convert-granite.py:242-257 | no two holes get the same filler |
| `TokenTables.ReverseMap` | scripts/convert-moss.py:186 | the map from texts to ids, last listed id first |
| `TokenTables.ReverseLookupIsRight` | scripts/convert-moss.py:186-209 | the reverse map always names a row holding the text, and finds nothing only when there is none |
| `TokenTables.NameToId` | scripts/convert-granite.py:259-272 | base vocabulary first, then the first added token |
| `TokenTables.BaseFirstLookupIff` | scripts/convert-canary-qwen.py:238-290 | the row it names holds the name exactly when no added token and no placeholder displaced it |
| `TokenTables.PlaceholderDisplaces` | scripts/convert-canary-qwen.py:246-258 | a placeholder that does |
| `CtcTokens.ReadTokenizer` | scripts/convert-granite5_ctc.py:175-241 | table, gap check and blank lookup, with their errors |
| `CtcTokens.IndexOutOfRangeIff` | scripts/convert-granite5_ctc.py:175-185 | the assignments run off the table exactly when some id is so negative that counting from the end leaves it |
| `CtcTokens.AcceptedIsDense` | scripts/convert-granite5_ctc.py:179-214 | in an accepted table every id was written and shows its last writer |
| `CtcTokens.AcceptedIff` | scripts/convert-granite5_ctc.py:175-241 | exactly which files are accepted, from the writes and the pad token alone |
| `CtcTokens.BlankRowIff` | scripts/convert-granite5_ctc.py:231-241 | the blank's row holds the pad token exactly when no later write hit it |
| `Metadata.MoveShard` | scripts/lib/gguf_common.py:322-328 | the loop that moves the bulk keys |
| `Metadata.MoveBulkLastIs` | scripts/lib/gguf_common.py:306-329 | the result is the scalar fields in old order, then the present bulk fields in list order |
| `Metadata.MoveBulkKeepsFields` | scripts/lib/gguf_common.py:306-329 | no field is lost, added or changed |
| `Metadata.FillCapabilities` | scripts/lib/gguf_common.py:344-357 | the loop that declares missing capabilities |
| `Metadata.EveryCapabilityIsStated` | scripts/lib/gguf_common.py:344-357 | every capability is stated, nothing stated changes, nothing else appears |
| `TrailerAudit.TrailerOkIff` | scripts/audit_gguf_metadata.py:76-83 | the trailer check passes exactly on a bulk-free head followed by the present bulk keys in list order |
| `TrailerAudit.FileTypeStatusIff` | scripts/audit_gguf_metadata.py:85-92 | each file type status by positions alone: stranded exactly when a bulk key comes before the file type, or is it |
| `TrailerAudit.PassingFileTypeComesFirst` | scripts/audit_gguf_metadata.py:85-92 | a file that passes never has its file type behind the trailer |
| `TrailerAudit.WriterPassesAudit` | scripts/lib/gguf_common.py:360-378 | whatever order fields were written in, the writer's layout passes |
| `TrailerAudit.MovingTwiceIsMovingOnce` | scripts/lib/gguf_common.py:306-329 | the move is idempotent |
| `Bundle.Check` | scripts/compose-multitalker-bundle.py:108-146 | a pair is accepted exactly when it passes all checks, a refusal names the first check that fails, and a missing field is a KeyError that names it |
| `Bundle.ComposableIff` | scripts/compose-multitalker-bundle.py:108-146 | the checks that accept a pair, written out |
| `Bundle.Compose` | scripts/compose-multitalker-bundle.py:157-181 | the fields and tensors of the bundle file, for exactly the pairs that pass the checks |
| `Bundle.BundleDiarizesOnce` | scripts/compose-multitalker-bundle.py:74-82 | whatever the inputs say, the file states the diarization capability once, and true |
| `Bundle.EveryFieldHasItsOrigin` | scripts/compose-multitalker-bundle.py:157-181 | the whole key/value section, key by key: each key once, with the value of its origin by rank (diarizer section, composer, recognizer, writer, capability fill), and no other key |
| `Bundle.OriginInText` | scripts/compose-multitalker-bundle.py:157-172 | those origins, written out key by key |
| `Bundle.BundlePassesAudit` | scripts/compose-multitalker-bundle.py:157-181 | the bundle's layout passes the audit |
| `Bundle.SeparationIff` | scripts/compose-multitalker-bundle.py:173-176 | separating by prefix recovers both tensor lists in order exactly when no recognizer tensor carries the prefix |
| `Bundle.BundledNamesDistinctIff` | scripts/compose-multitalker-bundle.py:173-176 | exactly when the merged names stay distinct |

## Left out

- NULL arguments, timings, audio cursors, returned timestamp kinds and row timestamps: no decision of the dispatcher
  depends on them. Of a result's rows the model keeps token texts and the word and segment counts.
- Wrap-around of the 32-bit revision counter.
- Threads, callbacks as code, scratch release, logging and the ownership of borrowed strings.
- The parameter and extension checks before begin and run, one by one: they are a single status of any value.
- The families' own batch hooks and prefix rules beyond the contract stated in `src/transcribe-arch.h`: arbitrary
  outcomes.
- Digits outside ASCII in tensor names, and keys that are not strings.
- Floating-point rounding, data types and quantization, byte counts, and the file formats themselves.
- What the GGUF library does with a repeated key: the model takes a key/value section to be an insertion-ordered
  dictionary. Writers with more than one shard.
- The warning about checkpoint tensors that were not consumed, and loading the attention chunk menu.
- Merge lists, chat templates and per-row token types of the granite5 table.
- The conversion of the diarizer itself and the other converters, which repeat the emission pattern.
