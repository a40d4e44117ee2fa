# kswarm protocol model

A Dafny model of the off-chain half of the kswarm prediction protocol, with proofs of what it promises.

A customer opens a prediction run: a manifest of branch jobs and one aggregate job. Branch workers claim
the branch jobs, run a model, and submit MFB2 receipts. Once the branches settle, `predict bind-aggregate`
builds the MFA3 artifact from their receipts, predicts the journal a zkVM guest will commit, and opens the
aggregate job with those hashes. The aggregator runner and the verifier reduce the same artifact again.

The model has four parts.

- **The aggregate reduction**, in Python and in the fixed-width Rust guest: `Merkle`, `Combiners`,
  `Trimming`, `GuestCombiners`, `CombinerParams`, `Mfb2`, `Mfb2Parsers`, `BranchEncoders`, `GuestEncoder`,
  `Utf8`, `Hex`, `Reduction`, `ReductionLoops`, `GuestReductionLoop`, `ReductionFacts`, `GuestAgreement`,
  `ReductionMeaning`, `ReductionErrors`, `CommittedOutputs`, `Commitment`. SHA-256 is an arbitrary function from byte strings to 32 bytes, so
  uniqueness reads "equal, or two of the strings actually hashed collide".
- **The prediction-run protocol**: `PredictRun` is a transition system of the four commands, crashes between
  any two steps, transactions whose sender may not learn their fate, and worker moves; `PredictSafety` has
  the step-by-step invariants, `PredictTheorems` what holds over whole runs, `PredictBind` one bind-aggregate
  command from the manifest it finds to its end, and `PredictCli` the commands as methods that update
  one manifest in place, every one of which extends a run of the transition system.
- **Worker discipline and agreement**: `RetryLoop`, `BranchWorker`, `BranchWorkerDaemon` (claim budget,
  circuit breaker, deadline-bounded retries) and `Agreement`, `AgreementTheorems`, `AgreementExact`,
  `BindAcceptance`, `FaithfulCodec` (customer, runner and verifier over one artifact).
- **Two loops**: `JsonScanner` (salvaging a JSON object out of model output) and `ScoreFelt` (the byte-wise
  field-modulus comparison).

Loops and in-place updates of the source are methods, each proved equal to a specification function or to a
step of the specification; the properties are lemmas about those. Beside each specification stands a lemma that
says, without it, exactly which inputs are accepted, with what result, and why any other is refused: among them
`ReductionMeaning.ReduceExactly`, `ReductionErrors.ReduceFirstError`, `AgreementExact.RunnerBindsExactly`,
`AgreementExact.VerifierAttestsExactly`, `BranchWorker.PassGoes`, `GuestEncoder.DocumentEncodes`, `Mfb2.EncodingLayout`.

## Where the code and its promises differ

- The "lower median" of the trimmed mean is the value at index n/2, the upper middle one for even n
  (`cli/kswarm_cli/aggregate.py:329-330`); `Trimming.MedianIsMiddle` states the index.
- `predict bind-aggregate` drives the whole run without reconciling it, so a branch entry left pending by a
  crash makes it resend a transaction that already landed: `PredictBind.BindRefusedExactly` is the exact
  condition on the saved manifest, `PredictTheorems.BindCanRepeatACommit` a run.
- Binding adds `category_dictionary_size` to the parameters of a majority-vote run, and the runner compares
  them with the pinned plan, which has none: `AgreementTheorems.RunnerAcceptsBoundJob` is the exact condition,
  `AgreementTheorems.MajorityVoteDepartsFromItsPlan` the consequence, and
  `BindAcceptance.MajorityVoteBindsAndIsRefused` a run.
- A claim that lands although an error is reported is not charged to the pass's budget:
  `BranchWorker.ClaimPassesTheCap` is the exact condition, `BranchWorker.UnseenClaimPassesTheCap` a pass.

## Model

| member | source | states |
|---|---|---|
| PredictTheorems.ManifestNeverAhead | cli/kswarm_cli/main.py:1893-1931 | At every point of every run of open, resume, bind-aggregate, cancel, crashes and worker moves: an entry saved as opened has a job account, one saved as committed has a job past awaiting its artifact, and no entry's escrow is funded twice |
| PredictTheorems.OpenAndResumeNeverRepeat | cli/kswarm_cli/main.py:1893-1931 | Every transaction open or resume ever sends is one the program accepts at that moment: no account is opened twice and no artifact committed twice |
| PredictTheorems.BindSendsForAggregateOnly | cli/kswarm_cli/main.py:1440-1455 | Bind-aggregate drives without reconciling: what it sends is accepted if and only if it is for the aggregate entry |
| PredictTheorems.BindCanRepeatACommit | cli/kswarm_cli/main.py:1440-1455 | A concrete reachable run in which bind-aggregate repeats a commit that already landed, so the guarantee of resume does not extend to it |
| PredictBind.BindRefusedExactly | cli/kswarm_cli/main.py:1352-1456 | A bind-aggregate command that reaches its drive and is not killed sends a transaction the program refuses if and only if the manifest it found saved has a pending branch entry, and then it ends without finishing |
| PredictBind.BindCannotFinish | cli/kswarm_cli/main.py:1440-1456 | With a pending branch entry in the manifest it found, killed or not, the command never has a transaction for the aggregate confirmed nor saves the run as open |
| PredictBind.CommandKeepsPath | cli/kswarm_cli/main.py:1352-1456 | Everywhere in a bind-aggregate command the branch entries it holds are those it found saved |
| PredictBind.SettledRunBinds | cli/kswarm_cli/main.py:1352-1456 | Over a saved manifest with no pending branch, settled branches and no aggregate account, a bind-aggregate in which nothing fails always has a step to take until it ends, takes at most six per entry and five more whatever workers do, and leaves the run open, the branches as they were and the aggregate committed |
| PredictTheorems.NothingOpensAfterCancel | cli/kswarm_cli/main.py:1635-1675 | Once a run was saved as cancelled, every later transaction of any command is a cancellation, although bind-aggregate may set the saved status back to opening |
| PredictTheorems.SuccessPossible | cli/kswarm_cli/main.py:1893-1916 | From every reachable point of a resume, or of open's drive, the command has a step that does not fail |
| PredictTheorems.SuccessDecreases | cli/kswarm_cli/main.py:1893-1916 | Each such step lowers the measure (two per planned entry, one per opened entry, plus the position) and never defers, cancels or revives an entry |
| PredictTheorems.FailureFreeRunCompletes | cli/kswarm_cli/main.py:1893-1931 | A failure-free resume, from any reachable interrupted state and under any worker moves, ends within the measure, with the run open and every entry that was not deferred or cancelled committed |
| PredictTheorems.RemainingBound | cli/kswarm_cli/main.py:1893-1916 | The transactions left to send are at most two per entry |
| PredictSafety.NextKeepsInv | cli/kswarm_cli/main.py:1180-1456 | Every step of the protocol keeps the whole invariant: manifest not ahead, what the running command knows, fundings, accepted transactions, cancellation |
| PredictSafety.DriveSends | cli/kswarm_cli/main.py:1893-1916 | While driving, a pending entry means the run was never cancelled, and the transaction sent is accepted unless a bind-aggregate sends it for a branch |
| PredictSafety.SendKeepsLogs | cli/kswarm_cli/main.py:1893-1916 | A transaction that may land without its sender knowing keeps the funding count and the accepted-transactions log |
| PredictRun.PlannedNoncesDistinct | cli/kswarm_cli/prediction.py:107-112 | Nonces are planned exactly when the last fits a u64; they are consecutive from the base, the aggregate's last, hence pairwise distinct, and so are job addresses |
| PredictCli.Session.constructor | cli/kswarm_cli/main.py:1180-1315 | A session starts as the first state of a run, whatever accounts the chain holds |
| PredictCli.Session.SignAndSend | cli/kswarm_cli/main.py:1867-1891 | One transaction of this kind, entry and sender is logged; success means it was accepted, landed and is confirmed, and the account has the status it leaves; failure leaves the command ended and ignorant; when nothing goes wrong and the account is as the transaction needs it, it succeeds |
| PredictCli.Session.SaveRun | cli/kswarm_cli/prediction.py:123-138 | The manifest on disk is replaced by the one in memory, or the command died before and it is as it was |
| PredictCli.Session.DriveRunOpen | cli/kswarm_cli/main.py:1893-1916 | The drive loop is a run of the transition system; if it succeeds exactly the pending entries became committed, the saved manifest is the one in memory, and the transactions sent are exactly one per missing step, entry by entry; it succeeds when nothing goes wrong and every pending entry is where the chain says |
| PredictCli.Session.ReconcileRun | cli/kswarm_cli/main.py:1921-1931 | The reconcile loop is a run of the transition system, sends nothing and keeps the run status; a pending entry without an account becomes planned, one whose job awaits its artifact opened, any other committed, and the rest are kept; it succeeds when nothing goes wrong |
| PredictCli.Session.OpenRun | cli/kswarm_cli/main.py:1290-1315 | Never touches an existing manifest; saves or sends nothing unless every account, the aggregate's too, was seen absent; on success all branches are committed, the aggregate deferred, and what was sent is, branch by branch, an accepted open and an accepted commit; succeeds when nothing goes wrong and no account exists; whatever happens the saved manifest is not ahead of the chain |
| PredictCli.Session.ResumeRun | cli/kswarm_cli/main.py:1318-1349 | Refuses, without a step, a run that is not opening; on success the saved run is complete and what was sent is exactly what the accounts, as they stood at one point of the command, lacked; always succeeds when nothing goes wrong; whatever happens the saved manifest is not ahead of the chain |
| PredictCli.Session.BindAggregate | cli/kswarm_cli/main.py:1352-1456 | Saves nothing unless every branch job was seen settled, or completed and attested under the flag, with its receipt, and plan and reduction accept; sends nothing unless the aggregate's account was also seen absent; on success the aggregate is committed, the saved run open, and the transactions are one per missing step; succeeds when nothing goes wrong and no branch is pending; whatever happens the saved manifest is not ahead of the chain |
| PredictCli.Session.CancelRun | cli/kswarm_cli/main.py:1635-1675 | On success every account was read; each job found awaiting its artifact or open was cancelled by exactly one landed cancellation and its entry is cancelled, entries not on chain that were pending or deferred are cancelled, the rest are kept, and nothing else was sent; so every job was seen, in the command, neither awaiting its artifact nor open; succeeds when nothing goes wrong; whatever happens the saved manifest is not ahead of the chain |
| PredictCli.NothingRemains | cli/kswarm_cli/main.py:1893-1916 | With nothing pending no transaction is left to send |
| PredictCli.MissingCounts | cli/kswarm_cli/main.py:1893-1916 | The transactions of a drive are as many as the measure of what remains |
| Merkle.SortedBranchesMerkleRoot | cli/kswarm_cli/aggregate.py:175-190 | The level-by-level loop returns the recursive tree hash of section 2.1 of RFC 6962 over the branch hashes in ascending byte order, whichever way they are put into that order, and an error exactly on no leaves; it ends because each level has half the nodes, rounded up |
| Merkle.RootOfAscending | cli/kswarm_cli/aggregate.py:175-190 | The root is the tree over the branch hashes in ascending lexicographic order |
| Merkle.TreeHashEquations | cli/kswarm_cli/aggregate.py:167-190 | The equations of the tree: a leaf is hashed after a zero byte, and any longer list is cut at the power of two below its length that is at least half of it, the two roots hashed after a one byte |
| ByteStrings.LexLeqByFirstDifference | cli/kswarm_cli/aggregate.py:175-190 | The order of byte strings: a prefix, or smaller at the first difference |
| Merkle.PairLevel | protocol/bonsol-aggregate-reducer/src/merkle.rs:24-35 | One pass over a level pushes the parents of its pairs and promotes an odd last node |
| Merkle.NextLevelKeepsTree | protocol/bonsol-aggregate-reducer/src/merkle.rs:24-35 | Replacing a level by its parents keeps the recursive tree hash |
| Merkle.SplitIsLargestPowerOfTwo | cli/kswarm_cli/aggregate.py:175-190 | The recursion splits at the largest power of two below the size |
| Merkle.TreeOverLeafHashes | protocol/bonsol-aggregate-reducer/src/merkle.rs:39-53 | The tree over leaf hashes is the RFC's tree hash over leaves, with the 0x00 and 0x01 prefixes |
| Merkle.TreeHashBinds | cli/kswarm_cli/aggregate.py:167-172 | Equal tree hashes mean the same leaves, of whatever number, or two different strings hashed by the two trees have one digest |
| Merkle.SortedRootOfPermutation | cli/kswarm_cli/aggregate.py:175-190 | The root depends only on the multiset of receipt hashes |
| Merkle.SortedRootBinds | cli/kswarm_cli/aggregate.py:175-190 | Equal roots mean the same multiset of receipt hashes, or a collision among the strings hashed |
| Combiners.WeightedMeanBps | cli/kswarm_cli/aggregate.py:292-303 | The accumulating loop computes the weighted mean, with the same errors |
| Combiners.RoundHalfUpIsNearest | cli/kswarm_cli/aggregate.py:275-289 | For a quotient between two basis-point bounds rounding succeeds, gives the nearest integer with ties up, and stays between the bounds |
| Combiners.RoundHalfUpExactly | cli/kswarm_cli/aggregate.py:275-289 | On any input rounding gives r if and only if the divisor is positive, the dividend not negative, and r is nearest with ties up and a basis-point value; otherwise it names which of them is at fault |
| Combiners.NearestTiesUpUnique | cli/kswarm_cli/aggregate.py:275-289 | Only one integer is nearest with ties up |
| Combiners.MeanIsNearest | cli/kswarm_cli/aggregate.py:306-312 | The mean is the nearest integer to the exact mean and lies between the smallest and largest value |
| Combiners.WeightedMeanIsMeanOfRepeated | cli/kswarm_cli/aggregate.py:292-303 | The weighted mean is the plain mean of the list with each value repeated weight times, in range, and fails exactly on zero total weight |
| Combiners.WeightedMeanVerdict | cli/kswarm_cli/aggregate.py:292-303 | On any list: no values, a value out of range and no weight at all are the only errors, reported in that order |
| Combiners.RepeatedCountsWeights | cli/kswarm_cli/aggregate.py:292-303 | The repeated list has the total weight as length and the weighted sum as sum |
| Combiners.MajorityResultIsPlurality | protocol/bonsol-aggregate-reducer/src/combiner.rs:254-283 | The linear-search tally returns the one category whose weight is at least every other's and above every smaller category's; the errors are exactly no votes and no weight |
| Combiners.PluralityUnique | cli/kswarm_cli/aggregate.py:336-348 | There is at most one such category |
| Combiners.MajorityResultOfPermutation | cli/kswarm_cli/aggregate.py:336-348 | The result does not depend on the order of the votes |
| Combiners.MajorityVote | cli/kswarm_cli/aggregate.py:336-348 | The dictionary form, whatever order the dictionary is listed in, returns the same result as the linear-search form |
| Trimming.RetainedIsBlock | cli/kswarm_cli/aggregate.py:315-333 | Exactly n - k values are kept; sorted, they are one contiguous block of the sorted input, and the value at index n/2 is among them |
| Trimming.RejectedAreFarthest | cli/kswarm_cli/aggregate.py:315-333 | Exactly k positions are rejected and each is at least as far from the median value as every position kept |
| Trimming.RejectedComeFirst | cli/kswarm_cli/aggregate.py:315-333 | Ties included: against any kept position a rejected one is farther from the median value, or as far and smaller in value, or equal in value and earlier |
| Trimming.RetainedPositions | cli/kswarm_cli/aggregate.py:315-333 | The kept values are those at the positions not rejected, in order |
| Trimming.RetainedKeepsOrder | cli/kswarm_cli/aggregate.py:315-333 | The kept values stand in their original order |
| Trimming.MedianIsMiddle | cli/kswarm_cli/aggregate.py:329-330 | The reference value is the one at index n/2 of the sorted values, which for even n is the upper middle one |
| Trimming.RejectionPeelsEnds | protocol/bonsol-aggregate-reducer/src/combiner.rs:223-250 | The rejection order takes, at each turn, the smallest or the largest value left |
| Trimming.TrimmedMeanOfPermutation | cli/kswarm_cli/aggregate.py:306-333 | The retained multiset and the trimmed mean depend only on the multiset of inputs |
| Trimming.TrimmedMeanInRange | cli/kswarm_cli/aggregate.py:306-312 | The trimmed mean succeeds, is the nearest integer to the mean of what is kept, and lies between the smallest and largest input |
| Trimming.TrimmedMeanVerdict | cli/kswarm_cli/aggregate.py:306-333 | On any list: an empty one, a negative or too large count and a kept value out of range are the only errors, in that order |
| Trimming.TrimCountLeavesABranch | cli/kswarm_cli/aggregate.py:265-272 | An accepted trim count is below the branch count |
| GuestCombiners.GuestRoundHalfUp | protocol/bonsol-aggregate-reducer/src/combiner.rs:180-192 | The i128 rounding equals the unbounded one wherever its two intermediate results fit an i128 |
| GuestCombiners.GuestWeightedMeanBps | protocol/bonsol-aggregate-reducer/src/combiner.rs:138-161 | The i128/u128 accumulation never overflows on any slice the guest can hold and equals the unbounded weighted mean |
| GuestCombiners.GuestTrimCountFromBps | protocol/bonsol-aggregate-reducer/src/combiner.rs:130-136 | The fixed-width trim count equals the unbounded one and fits usize |
| GuestCombiners.MarkKept | protocol/bonsol-aggregate-reducer/src/combiner.rs:223-250 | The in-place keep array marks exactly the positions not rejected |
| GuestCombiners.GuestRetainedValues | protocol/bonsol-aggregate-reducer/src/combiner.rs:223-250 | The sort-mark-collect form equals the specification, errors included |
| GuestCombiners.GuestTrimmedMeanBps | protocol/bonsol-aggregate-reducer/src/combiner.rs:163-171 | The fixed-width trimmed mean equals the unbounded one |
| GuestCombiners.GuestMajorityVote | protocol/bonsol-aggregate-reducer/src/combiner.rs:254-283 | The u128 totals never overflow and the result equals the unbounded vote |
| CombinerParams.PushU64 | protocol/bonsol-aggregate-reducer/src/combiner.rs:105-120 | The digit buffer, filled backwards, pushes the decimal numeral of any u64 |
| CombinerParams.PushParamsLine | protocol/bonsol-aggregate-reducer/src/combiner.rs:87-97 | The pushed line is the parameter line |
| CombinerParams.DecimalRoundTrip | protocol/bonsol-aggregate-reducer/src/combiner.rs:105-120 | Reading a numeral back gives the number |
| CombinerParams.NoLeadingZero | protocol/bonsol-aggregate-reducer/src/combiner.rs:105-120 | A numeral starts with a zero only if it is zero's |
| CombinerParams.ParamsLineInjective | cli/kswarm_cli/aggregate.py:154-164 | The decimal parameter line determines the combiner id, the trim fraction and the dictionary size |
| CombinerParams.ParamsLineReads | cli/kswarm_cli/aggregate.py:154-164 | Read from the left the line says the combiner id, the trim fraction and the dictionary size, each after its own label, and ends there |
| Utf8.EncodingKeepsOrder | protocol/bonsol-aggregate-reducer/src/canonical_json.rs:10-15 | UTF-8 byte order and code-point order agree on all scalar strings (section 1 of RFC 3629) |
| Utf8.SortsAgree | protocol/bonsol-aggregate-reducer/src/canonical_json.rs:10-15 | Sorting keys by bytes and by code points gives the same sequence |
| Utf8.EncodingInjective | protocol/bonsol-aggregate-reducer/src/canonical_json.rs:10-15 | Two strings with the same bytes are the same |
| Utf8.ScalarLayout | protocol/bonsol-aggregate-reducer/src/canonical_json.rs:10-15 | Each scalar is spelled as section 3 of RFC 3629 lays out: lead byte, continuation bytes of six bits each, shortest form |
| BranchEncoders.KeyOrdersAgree | protocol/bonsol-aggregate-reducer/src/branch_receipt.rs:303-321 | The guest's map order of the score keys is Python's sorted order |
| BranchEncoders.BranchOutputResultBytes | backend/app/protocol/canonical_hash.py:70-114 | The backend encoder, flag bits and all, produces exactly the encoding of the receipt it validated, with the same first error |
| BranchEncoders.OutputReceiptWellFormed | backend/app/protocol/canonical_hash.py:70-114 | What the backend encodes is always well formed |
| BranchEncoders.OutputEncodes | backend/app/protocol/canonical_hash.py:70-114 | Any output, validated or not: it is encoded if and only if every field fits; the receipt then has each field as it is and the scores in ascending order of their keys; otherwise the first field that does not fit is named |
| BranchEncoders.ScoreSectionLength | backend/app/protocol/canonical_hash.py:105-114 | The score section never exceeds 193 bytes |
| GuestEncoder.EncodeBranchResultBytes | protocol/bonsol-aggregate-reducer/src/branch_receipt.rs:210-301 | The guest encoder produces exactly the encoding of the receipt it read, with the same first error |
| GuestEncoder.DocumentEncodes | protocol/bonsol-aggregate-reducer/src/branch_receipt.rs:210-358 | Any document: it is encoded if and only if its fields fit and its shape does (the value its kind needs, bounds in order, at most 32 scores); the receipt then says what the document says; otherwise the error is that of the first failing check |
| GuestEncoder.ReadNarrativeScores | protocol/bonsol-aggregate-reducer/src/branch_receipt.rs:303-321 | The guest's loop collects the scores in byte order of their keys, with the same first error |
| GuestEncoder.EncodersAgree | protocol/bonsol-aggregate-reducer/src/branch_receipt.rs:210-321 | For every validated output and its document, guest and backend accept together and encode the same receipt |
| GuestEncoder.EncodedOutputParses | backend/app/protocol/canonical_hash.py:70-114 | The strict parser accepts every backend encoding, with the same index, kind, scalar and label and the hash of the bytes |
| GuestEncoder.SelfCheckPasses | protocol/bonsol-aggregate-reducer/src/branch_receipt.rs:183-187 | The guest's encode-then-parse self-check never fails |
| Mfb2.ParseOfEncode | backend/app/protocol/canonical_hash.py:70-165 | Decoding an encoding returns the receipt |
| Mfb2.EncodeOfParse | cli/kswarm_cli/aggregate.py:193-262 | Re-encoding the full decode of any accepted string returns that string |
| Mfb2.ParseAcceptsEncodings | cli/kswarm_cli/aggregate.py:193-262 | The strict parser accepts a string with a result if and only if the string is the encoding of that well-formed result: one spelling each |
| Mfb2.EncodingLength | backend/app/protocol/canonical_hash.py:70-114 | Every encoding has between 43 and 243 bytes, so the 512-byte check never fires |
| Mfb2.EncodingLayout | backend/app/protocol/canonical_hash.py:70-114 | The layout byte by byte: magic, version, kind, index, flag bits, then each present field at its offset in little-endian, the scores six bytes each, and the hash last |
| Mfb2.HeaderVerdicts | cli/kswarm_cli/aggregate.py:193-215 | The order of the header errors, and which errors only the fields can raise |
| Mfb2.TrailingExactly | protocol/bonsol-aggregate-reducer/src/mfb2.rs:108-172 | Trailing bytes are reported exactly when the string is a receipt's encoding followed by something |
| Mfb2Parsers.ParseBranchResultBytes | protocol/bonsol-aggregate-reducer/src/mfb2.rs:108-172 | The cursor-threading strict parser equals the specification, first error included |
| Mfb2Parsers.SkipScores | protocol/bonsol-aggregate-reducer/src/mfb2.rs:108-172 | Skipping the score list moves the cursor to where reading it would, and fails where reading it would |
| Mfb2Parsers.LenientAgreesWithStrict | backend/app/protocol/canonical_hash.py:123-165 | The strict parser accepts exactly what the lenient decoder decodes to a well-formed receipt whose encoding it is, and then both agree |
| Mfb2Parsers.LenientExactly | backend/app/protocol/canonical_hash.py:123-165 | The lenient decoder takes a string for a receipt if and only if it is that receipt's encoding up to the three high flag bits, where fields need only fit their bytes |
| Mfb2Parsers.ParseBranchOutputResultBytes | backend/app/protocol/canonical_hash.py:123-165 | The lenient decoder's moving offset computes its specification |
| Hex.HexRoundTrip | protocol/bonsol-aggregate-reducer/src/lib.rs:108-138 | Decoding an encoding returns the bytes |
| Hex.HexSingleSpelling | protocol/bonsol-aggregate-reducer/src/lib.rs:108-127 | What decodes is the encoding of what it decodes to |
| Hex.HexTextDigits | protocol/bonsol-aggregate-reducer/src/lib.rs:108-138 | Each byte is spelled by its two digits out of 0123456789abcdef, the high one first |
| Hex.HexBytesExactly | cli/kswarm_cli/aggregate.py:553-557 | A text decodes to bytes if and only if it is their digits |
| Hex.HexDecodersAgree | cli/kswarm_cli/aggregate.py:553-557 | The guest's decoder over UTF-8 bytes and the CLI's over characters accept the same texts with the same bytes |
| Hex.DecodeHexLoop | protocol/bonsol-aggregate-reducer/src/lib.rs:108-118 | The two-digit loop computes the decoder |
| ReductionLoops.ReduceAggregateArtifact | cli/kswarm_cli/aggregate.py:412-512 | The CLI's loop over four lists computes the reduction, with the same first error |
| ReductionMeaning.ReduceExactly | cli/kswarm_cli/aggregate.py:412-512 | The reduction is r if and only if head and branches are sound and r is what they say: for weighted-mean the nearest integer to the weighted mean of the carried scalars; for trimmed-mean the nearest to the mean of what peeling the farther end n times trim_bps / 10000 times off the sorted scalars leaves; for majority-vote the plurality of the labels; with the digest of the parameter line, the receipt hashes in order and the tree over them |
| ReductionMeaning.ReducesExactlyWhen | cli/kswarm_cli/aggregate.py:412-512 | An artifact reduces if and only if its head is sound, every branch carries a strictly parsed receipt with its index, its hash, a weight and a value the combiner can use, indices increase, and a trim fraction is below 100% |
| ReductionMeaning.GuestReducesExactly | protocol/bonsol-aggregate-reducer/src/aggregate.rs:181-345 | The guest's reduction is the same, for parameters that fit u32 and weights that fit u64 |
| ReductionErrors.ReduceFirstError | cli/kswarm_cli/aggregate.py:412-557 | Every refusal of either party: the head's first failing check, or the first failing check of the first branch not accepted, in the CLI's words or the guest's, or a trim fraction of 100% or more |
| GuestReductionLoop.GuestReduceAggregateArtifact | protocol/bonsol-aggregate-reducer/src/aggregate.rs:181-345 | The guest's loop over u32, u64 and i64 vectors never overflows and computes the reduction over the guest's own readers, with the same first error |
| GuestAgreement.HexFieldsAgree | protocol/bonsol-aggregate-reducer/src/lib.rs:97-118 | The guest's reader over UTF-8 bytes and the CLI's over characters take the same bytes off any field |
| GuestAgreement.GuestAcceptsWhatFits | protocol/bonsol-aggregate-reducer/src/aggregate.rs:181-345 | The guest accepts an artifact with a reduction if and only if the CLI does with the same one and the parameters fit u32 and the weights u64 |
| ReductionFacts.ReductionInRange | cli/kswarm_cli/aggregate.py:412-512 | Accepted artifacts have 1 to 128 branches, a scalar result of at most 10000 or a label below the dictionary size: no packing error is reachable |
| ReductionFacts.CombineInRange | cli/kswarm_cli/aggregate.py:497-503 | After the branch checks the combiner fails only on a trim fraction of 100% or more |
| ReductionFacts.OnlyTrimFractionFailsLate | cli/kswarm_cli/aggregate.py:265-272 | A combiner error of the whole reduction is that one, and only for trimmed-mean |
| ReductionFacts.BranchesGathered | cli/kswarm_cli/aggregate.py:446-490 | What the branch loop collects: strictly increasing indices, strictly parsed receipts, values and weights in range |
| CommittedOutputs.AggregateCommittedOutputs | protocol/bonsol-aggregate-reducer/src/aggregate.rs:161-172 | The buffer filled field by field holds the 73 committed bytes |
| CommittedOutputs.OutputsInjective | cli/kswarm_cli/aggregate.py:515-524 | The 73 bytes determine every field they carry |
| CommittedOutputs.OutputsLayout | cli/kswarm_cli/aggregate.py:515-524 | The layout of the 73 bytes: id, parameter digest, result and count in four little-endian bytes each, root |
| CommittedOutputs.FramesArePrefixFree | protocol/bonsol-aggregate-reducer/src/lib.rs:74-85 | No framed input is a proper prefix of another |
| CommittedOutputs.FramedInputLayout | protocol/bonsol-aggregate-reducer/src/lib.rs:74-85 | A frame is the payload's length in eight little-endian bytes, then the payload |
| Commitment.CommitmentBinds | cli/kswarm_cli/aggregate.py:154-190 | Two accepted artifacts that commit the same bytes have the same combiner, parameters, result, count and receipts in the same order, or two different strings hashed by the two computations have one digest |
| RetryLoop.ExecuteClaimed | worker/branch_worker/daemon.py:159-200 | The unbounded retry loop ends under any failures, submits at most once, retries no more than (latest start - first failure) / initial wait, and starts every later attempt by the deadline margin but for the oversleep |
| RetryLoop.RetriesBounded | worker/branch_worker/daemon.py:159-200 | The same bounds for any timeline of retried attempts |
| RetryLoop.WaitsFit | worker/branch_worker/daemon.py:159-200 | The first failure plus all waits up to the last retry is no later than the deadline margin |
| RetryLoop.BackoffBounds | worker/branch_worker/daemon.py:67-72 | Each wait lies between the initial and the maximal one, and the next is at least as long and at most double |
| RetryLoop.BackoffCaps | worker/branch_worker/daemon.py:67-72 | Waits double exactly until the cap, and then stay at it |
| RetryLoop.TotalBackoffGrows | worker/branch_worker/daemon.py:67-72 | Waits add up to at least one initial wait each, and to a geometric sum until the cap bites |
| RetryLoop.ExecutesOneWay | worker/branch_worker/daemon.py:159-200 | An environment determines the outcome, the submissions and the finishing time |
| RetryLoop.ExecutionEnds | worker/branch_worker/daemon.py:159-200 | Failure by failure: a job that is not ours or has no input is not attempted; only an endpoint or network failure is retried, and only while the next wait ends by the margin; any other ends the execution at once with its own reason; the receipt is submitted in the last attempt or not at all |
| BranchWorker.ClaimPassesTheCap | worker/branch_worker/daemon.py:109-145 | Over any run of passes: a landed claim raises the active claims above the cap if and only if the claims that landed unseen before it in its pass are at least the budget left plus the claims that ended since the budget was read; never by more than those unseen claims, so never in a pass that saw every claim land |
| BranchWorker.RunDisciplined | worker/branch_worker/daemon.py:43-57 | Over any run of passes: active claims, budget left and ended claims add up, nothing follows an abandonment in its pass, and no claim is made before the cooldown after every earlier abandonment is over |
| BranchWorker.PassGoes | worker/branch_worker/daemon.py:109-136 | What a pass does with the accounts it is shown: nothing while the breaker is open or the cap is used up; otherwise its budget is the cap less the active claims and it claims, in order, exactly the accounts that suit, each with budget left and after a preflight that passed, until there are no more, the next that suits finds no budget or fails the preflight, or the last was abandoned |
| BranchWorker.MatchesExactly | worker/branch_worker/daemon.py:228-246 | An account suits when it is open, of the right class, not past its claim deadline, asks for no capability or digest the worker lacks and no higher tier, and for the worker's own role or one of the three ordered roles below it |
| BranchWorker.UnseenClaimPassesTheCap | worker/branch_worker/daemon.py:202-212 | The excess is reached: for every cap above zero a pass goes one above it after one claim that landed unseen |
| BranchWorkerDaemon.Daemon.RunOnce | worker/branch_worker/daemon.py:109-136 | A pass of the daemon, its state updated in place, is a pass of the specification |
| BranchWorkerDaemon.Daemon.ClaimOffers | worker/branch_worker/daemon.py:119-136 | The loop over the accounts of a pass, with its continue and break, does what the specification of the pass allows |
| BranchWorkerDaemon.Daemon.Serve | worker/branch_worker/daemon.py:95-107 | Any number of passes is a run of the specification, so the log is disciplined |
| AgreementTheorems.RunnerAcceptsBoundJob | worker/aggregator_runner/runner.py:272-373 | A job bind-aggregate opened is accepted by the runner if and only if the image is not zero, every branch is ready, and, when a plan is pinned, binding added nothing to the planned parameters; otherwise the plan is what it reports |
| AgreementTheorems.MajorityVoteDepartsFromItsPlan | cli/kswarm_cli/main.py:1410-1418 | A majority-vote run with a pinned plan is always refused by the runner, because binding adds the dictionary size |
| BindAcceptance.MajorityVoteBindsAndIsRefused | worker/aggregator_runner/runner.py:334-373 | Such a run exists: for any hash and faithful codec, one settled branch with label 0, a plan naming only the combiner and a dictionary of one bind, and the runner reports that the artifact departs from its plan |
| FaithfulCodec.FaithfulCodecExists | cli/kswarm_cli/aggregate.py:141-144 | A codec that round-trips every JSON value exists, so the results that suppose one are not empty |
| AgreementTheorems.BoundScalarRunIsAttested | worker/verifier_worker/daemon.py:385-475 | For scalar combiners over ready branches and a non-zero image: the runner accepts, and the verifier finds no error in the receipt it submits and attests that same hash |
| AgreementTheorems.VerifierAgreesWithRunner | worker/verifier_worker/daemon.py:385-475 | For a job the runner accepts, the verifier reports no error on a receipt if and only if it is the reduction's outputs, and always attests the hash of those outputs |
| AgreementTheorems.OneExecutionSettles | worker/aggregator_runner/runner.py:448-480 | The hook check accepts exactly one execution per bound job, and its journal hash is the hash of the digest and outputs it reports |
| AgreementExact.CollectsExactly | cli/kswarm_cli/main.py:1459-1496 | Collection succeeds if and only if every branch job has an account that settled, or under the flag is completed and attested, with receipt bytes that hash to its submitted hash; otherwise the first that does not decides which of the four refusals it is |
| AgreementExact.BindFollowsPlanExactly | cli/kswarm_cli/main.py:1499-1559 | The plan check passes if and only if no plan is pinned, or it can be read and names the run's combiner, its parameters and, where it names any, the bound jobs in order and the reducer image |
| AgreementExact.BindFixes | cli/kswarm_cli/main.py:1410-1439 | What a bind that succeeds fixes: the job names the artifact, carries the digest of its framed bytes, the journal hash of its reduction and the image; the artifact says of the run and of each branch what the manifest and the branch account say, with weight one |
| AgreementExact.ArtifactOrdersBranches | cli/kswarm_cli/aggregate.py:356-410 | The artifact has all collected branches in ascending order of index |
| AgreementExact.BindRefuses | cli/kswarm_cli/main.py:1410-1439 | The order of bind's refusals |
| AgreementExact.RunnerChecksExactly | worker/aggregator_runner/runner.py:300-332 | The runner's branch check passes if and only if every branch names a branch-proof job on chain that settled, or under the flag is completed and attested, and carries a strictly parsed receipt with the hash on chain; otherwise the first branch that does not gives its own refusal |
| AgreementExact.RunnerFollowsPlanExactly | worker/aggregator_runner/runner.py:334-373 | The runner's plan check passes if and only if the artifact names no plan, or one that can be read and names its combiner, its parameters and, where it names any, its jobs in order |
| AgreementExact.RunnerBindsExactly | worker/aggregator_runner/runner.py:272-373 | On any job, bound by whomever: the runner goes on with a reduction if and only if it is the committed artifact's, the job carries the artifact's digest and the reduction's journal hash, the image is not zero, and both checks pass |
| AgreementExact.RunnerRefuses | worker/aggregator_runner/runner.py:272-298 | The order of the runner's refusals |
| AgreementExact.VerifierReportsExactly | worker/verifier_worker/daemon.py:456-475 | One error for each branch whose job is missing, is no branch-proof job or has another receipt hash on chain, that branch's own, in the order of the branches; none exactly when there is no such branch |
| AgreementExact.VerifierAttestsExactly | worker/verifier_worker/daemon.py:385-454 | For any job whose artifact reduces, accepted by a runner or not: the hash of the outputs is attested, and no error is reported if and only if digest and journal hash are the job's, the receipt is the outputs, and every branch receipt is the one on chain |
| AgreementExact.VerifierListsErrors | worker/verifier_worker/daemon.py:385-454 | The errors in order: of the job, of the receipt, then of the branches |
| AgreementExact.VerifierAttestsSomething | worker/verifier_worker/daemon.py:385-454 | Something is attested exactly when the committed artifact reduces |
| AgreementTheorems.GuestReducesBoundArtifact | protocol/bonsol-aggregate-reducer/src/aggregate.rs:181-345 | The guest reduces a bound artifact to what the customer predicted if and only if the two parameters fit u32 |
| AgreementTheorems.RunnerPlanAgrees | worker/aggregator_runner/runner.py:334-373 | After a binding that met the plan, the runner's plan check fails exactly when binding changed the parameters |
| AgreementTheorems.RunnerBranchesAgree | worker/aggregator_runner/runner.py:300-332 | The runner's branch checks of a bound artifact pass exactly when every branch is ready |
| AgreementTheorems.AcceptedBranchVerifies | worker/verifier_worker/daemon.py:456-475 | A branch the runner accepts raises no error of the verifier's |
| AgreementTheorems.ReducedBranchParses | worker/aggregator_runner/runner.py:322-332 | Every branch of an accepted artifact carries a receipt the strict parser accepts, with the hash of its bytes |
| AgreementTheorems.CollectedReceipts | cli/kswarm_cli/main.py:1459-1496 | What binding collects is, branch by branch, the account's receipt, hashing to the account's submitted hash |
| BindAcceptance.BindSucceeds | cli/kswarm_cli/main.py:1410-1439 | Once the receipts are collected, bind-aggregate succeeds if and only if the pinned plan is met, the combiner is known, a majority-vote run has its dictionary, and the collected branches are reducible |
| BindAcceptance.ArtifactReduces | cli/kswarm_cli/aggregate.py:356-512 | The artifact built for collected branches reduces if and only if there are 1 to 128 of them, each receipt parses, carries its branch's index and a value the combiner can use, and the parameters are numbers with a trim fraction below 100% |
| BindAcceptance.BranchesAdd | cli/kswarm_cli/aggregate.py:446-494 | The branch loop accepts the documents of collected branches exactly when each receipt fits |
| Agreement.CollectBranchReceipts | cli/kswarm_cli/main.py:1459-1496 | The collecting loop stops at the first branch that is missing, not ready, empty or mismatched, and otherwise returns all in order |
| Agreement.CheckBranchesAgainstChain | worker/aggregator_runner/runner.py:300-332 | The loop returns the first refusal |
| Agreement.AggregateBranchesMatchChain | worker/verifier_worker/daemon.py:456-475 | The loop collects one error per failing branch, in order |
| JsonScanner.SalvageJsonObject | backend/app/utils/llm_client.py:15-58 | The scanner returns the parse of the last span that parses, and nothing if none does |
| JsonScanner.ObjectIsTheOnlySpan | backend/app/utils/llm_client.py:15-58 | An object text after a prefix with no quote or open brace and before a suffix with no open brace is the one span found, whatever strings and nested objects it holds |
| JsonScanner.SpansAreTheOutermostGroups | backend/app/utils/llm_client.py:27-49 | On any text the spans are exactly the groups balanced outside string literals before which every brace is closed; they are disjoint and in order |
| JsonScanner.ObjectIsSalvaged | backend/app/utils/llm_client.py:15-58 | Such an object is what is returned, if it parses |
| JsonScanner.GroupClosesItsBraces | backend/app/utils/llm_client.py:27-49 | Every brace inside a balanced group is closed inside it |
| ScoreFelt.IsReducedLe | protocol/bonsol-branch-reducer/src/lib.rs:115-124 | The most-significant-first byte loop returns true exactly when the little-endian value is below the BN254 modulus |
| ScoreFelt.DecodeScoreFelt | protocol/bonsol-branch-reducer/src/lib.rs:89-113 | The guest's byte-wise decoder and the CLI's numeric one accept the same texts, return the same 32 bytes and report the same first error |
| ScoreFelt.TableIsModulus | cli/kswarm_cli/bonsol.py:46-47 | The guest's byte table is the number the CLI compares with |
| ScoreFelt.DecodedScore | cli/kswarm_cli/bonsol.py:108-132 | A decoded score is a reduced element and the text is its only spelling |
| ScoreFelt.EveryElementDecodes | cli/kswarm_cli/bonsol.py:108-132 | Every reduced element has a text that decodes to its little-endian bytes |
| ScoreFelt.ScoreVerdict | cli/kswarm_cli/bonsol.py:108-132 | The verdict on any text: a character that is no lowercase hex digit first, then a number of digits other than 64, then a value not below the modulus; otherwise the 32 bytes of the value |

## Left out

- SHA-256 internals, zkVM proving, Bonsol execution and the proving hook: foreign calls; the hash is an arbitrary function.
- The Solana program: it is not in the repository. Its open, commit and cancel effects are those of `cli/tests/test_predict_flow.py:100-126`; a job address stands for its entry, since planned nonces are distinct.
- Accounts of other customers at a run's addresses, and two commands or two runs of one customer at the same time: one command runs at a time, over one manifest.
- Schema-1 run manifests, which were only written after a full open.
- JSON text: the reduction starts from JSON values, with Python's big integers apart from other numbers; the canonical text and its parser are a parameter pair in `Agreement` that round-trips. Lone surrogates, and Python's equality of `True` with `1`, are not modelled.
- The canonical hash preimage of a branch output: the canonical hash is a parameter of the encoders.
- The `f64` means of the Rust combiners: no committed value comes from them.
- Error messages: errors carry what distinguishes them, not their text.
- `Reduction.Reduce`: the CLI and the guest differ only in how they read fields (integer width, hex, the name of a field error, when a wrong hash length is reported), so one definition with a width parameter stands for both; each loop is proved against its own width.
- `RetryLoop.ExecuteClaimed`: exceptions other than those the loop catches end the process and are not modelled; nor is a restart of the daemon, which forgets the breaker. Times are reals.
- `BranchWorker.RunDisciplined`: one daemon per wallet; an unregistered worker account, which raises, is not modelled.
- `Agreement.Bind`: fields of a pinned plan that are neither strings nor the shapes `predict open` writes are refused rather than converted to text.
- `AgreementTheorems.RunnerAcceptsBoundJob`: branch indices increase in the manifest, as `predict open` writes them, and accounts keep class and receipt.
- The runner's and verifier's bookkeeping around the checks: run files, locks, claiming, report documents, challenges.
- IPFS and RPC clients, wallets, configuration, metrics, command-line parsing and output.
- Account decoders, instruction builders, model prompting and `swarm bootstrap`: per-field or per-step code whose properties are easy.
