# Firmosaurus: a verified model

Firmosaurus takes a firmware image apart, analyses every extracted file, matches the
components it finds against a vulnerability corpus, and reports. Its stages run as Kafka
handlers under at-least-once delivery and coordinate only through Redis claims and counters,
a completion marker, an object store and an atomic finalize in the report store.

The centre of this project is that coordination protocol, as a machine whose steps are the
individual store accesses (`Protocol`). Any number of workers interleave freely, any produced
message may be delivered again to any worker, and a worker may stop after any step. The
completion gate is three separate reads, as in the code. A run is a list of steps; the theorems
are about every run. Claims may run out at any moment; the one hypothesis of the counter
theorems, `Prompt`, is that a message delivered again after its claim ran out is a
`firmware.matched`, or finds nothing of its handling done and nobody at it. `ProtocolSafety`
holds the inductive invariant, `ProtocolOnce` the part that needs no claims, `ProtocolReads`
what a winner had read, `ProtocolTheorems` the results. `ProtocolLate` shows that the
hypothesis is exact: from any state a single delivery against it can be continued to a counter
that no longer counts distinct sub-blobs, a clashing unpack or an overwritten fragment.
`ProtocolWitnesses` holds runs that show which conditions cannot be dropped, for every choice
of names. `Stores` and `Router` are the handlers in imperative form; the ghost history of a
`Router` is a legal run of the machine, so the theorems hold of the handlers' code.

Around it stand the sequential parts:

- `Unpack`: the depth-first extraction walk with its depth cap and its running size total, over
  an arbitrary extractor (also one whose archive contains itself), against a declarative bound.
- `Positions`: the extraction tree position by position, and what bound, size, leaves and
  parents are in its terms.
- `NumberTheory`, `Bloom`: the positions of double hashing, counted exactly, and the bitmap as a
  refinement of a set over whole runs.
- `Text`, `Cpe`, `Families`, `Normalize`: printing and parsing of CPE names and the family scope.
- `Thresholds`, `Matcher`: tiers, and the fold that keeps the best candidate for each CVE.
- `Etl`, `Cosine`: the paginated, batched ingest, and the similarity of two vectors.
- `Hardening`, `ElfLayout`: the ELF program headers and dynamic array (System V ABI, chapter 5), and the records the offsets belong to.
- `Paths`: the containment test behind extraction.
- `Locks`: the retry lock under a clock, and the replay loop.
- `Hub`: one-slot mailboxes and the progress hub.
- `FeedbackLoop`: recalibration of thresholds from analyst verdicts.
- `Keys`: the names used in Redis and in the object store.

Where the code does not do what it is said to do, the model follows the code and the exact
condition is proved:

- With several routers the total read by the gate can be stale when the marker is read, so a
  passing gate does not mean that every child is matched (`StaleTotalPassesGate`), and the
  finalized SBOM can miss components (`ComponentsCanBeMissing`). Every child is matched exactly
  when the counters agree at the last read (`PassingGateExactly`), so always with one router
  (`OneRouterCompletes`), the deployment of ARCHITECTURE.md, section 1. Whatever the gate saw,
  the SBOM covers every child exactly when each fragment with components was stored when the
  winner listed them (`SbomCompleteIff`).
- The gate counts matched sub-blobs and not recorded ones, so a finalized report can lack the
  findings of a matched sub-blob even with one router and no redelivery
  (`FindingsCanBeMissing`); the findings cover every child exactly when each child with findings
  was recorded before the winner read the document (`FindingsCompleteIff`).
- `handle_cve_match` counts a match before it announces it. A worker that stops in between loses
  that child's findings for good, and the gate still opens (`CrashLosesFindings`).
- A claim runs out after a day, and a message redelivered after that can count its sub-blob
  twice and open the gate early (`ExpiredClaimOpensGate`), against the promise of
  services/router/idempotency.py:3-7. Nothing goes wrong unless something of the message's
  handling had been done or was under way (`PromptIsSafe`, `LateDeliveryHarms`), and never with
  a late `firmware.matched`.
- The documentation of the Bloom filter calls 159751 a prime. It is 107 times 1493
  (`LargeFactorIsComposite`). What is claimed of it still holds, because it has no factor in
  common with 1 to 6 (`SevenDistinctIff`).
- `fetch_nvd` yields an object before it looks at `max_records`, so a limit of zero or less
  still yields one; a limit is kept exactly when it is at least one or there is no object
  (`LimitKeptIff`).
- A component with a colon in its reported vendor or product can get a candidate name that
  parses into another family (`ColonInVendorChangesFamily`, `ColonInProductGivesFamily`); all its
  candidate names keep its family exactly when it has no version or no product, and so no name,
  or the piece of `vendor:product` after the first colon belongs to that family
  (`CandidatesKeepFamilyIff`). The version scanner never reports a colon
  (services/static_analysis/versions.py:18-26); one can come in only through the free-text
  fields of the event contract (shared/contracts/events.py:88-89).
- `is_within` refuses every child of the root `/` (`AgreesUnlessBareRoot`).
- The lock's release reads and then deletes. A delete that comes after the lease has run out and
  finds the key taken again takes away another holder's token (`LateDeleteBreaksExclusion`,
  `RemovesOtherIff`); without such a delete at most one client holds the key (`MutualExclusion`),
  and a release in one step is never one (`AtomicIsTimely`).
- `recalibrate` never takes an override back, so thresholds can differ from what the feedback
  asks for (`OverrideGoesStale`, `EffectiveIsPolicyIff`).
- Listing the fragments of a job by prefix also finds those of every job whose id goes on after
  a slash, and nothing else (`ListsOwnFragments`). No such id comes from the gateway, which makes
  job ids with uuid4 (services/gateway/app.py:126).

`dafny verify dfyconfig.toml` checks everything.

## Model

| member | source | states |
|---|---|---|
| ProtocolTheorems.CountersCountNestedSets | services/cve_matching/aggregator.py:42-54 | in every state a run under `Prompt` can reach, matched <= completed <= total, each the size of a set of distinct sub-blobs nested in the next, so the gate's `>=` is the documented `==` |
| ProtocolTheorems.PassedGate | services/cve_matching/aggregator.py:42-54 | a worker past the gate: the job's unpack ran to its end, is not running and was not rejected; if the counters agreed at the last read, every counted child is matched and has its fragment stored |
| ProtocolTheorems.PassingGateExactly | services/cve_matching/aggregator.py:50-54 | at a passing gate all counted children are matched exactly when the matched counter equals the total counter; a total that is not stale is enough, and it is not stale when the marker was set before it was read |
| ProtocolTheorems.FullReportIsComplete | services/cve_matching/aggregator.py:117 | a report finalized behind such a gate lists exactly the components of the fragments of all counted children, without repetition |
| ProtocolTheorems.SbomCompleteIff | services/cve_matching/aggregator.py:117-125 | whatever the gate saw, the final SBOM covers every counted child if and only if each fragment with components was stored when the winner listed them |
| ProtocolTheorems.OneRouterCompletes | services/router/handlers/unpack.py:43-60 | with one router every finalized job has every counted child matched and its SBOM holds every component of every child |
| ProtocolTheorems.RejectedNeverCompletes | services/router/handlers/unpack.py:51-56 | a job rejected by a defence is never finalized and never completes, however reads interleave |
| ProtocolTheorems.ShowsIff | services/cve_matching/aggregator.py:114-115 | a finalized report shows what was computed for a sub-blob exactly when that was recorded in the document before the winner read it, or nothing was found |
| ProtocolTheorems.FindingsCompleteIff | services/cve_matching/aggregator.py:189-197 | findings cover every counted child, also one whose message was never produced, if and only if each with findings was recorded before the winner's read |
| ProtocolReads.FinalReportReads | services/cve_matching/aggregator.py:114-142 | over every run: a finalized report flattens the slots of the document as the winner read it and lists the components of the fragments stored when the winner listed them |
| ProtocolReads.FragmentsGrow | services/router/handlers/cve_match.py:45-49 | a stored fragment is never overwritten, over every run under `Prompt` |
| ProtocolWitnesses.StaleTotalPassesGate | services/cve_matching/aggregator.py:44-54 | for any names: a run with two workers in which the gate passes while a counted child is unmatched |
| ProtocolWitnesses.ComponentsCanBeMissing | services/cve_matching/aggregator.py:44-117 | for any names: that run goes on to a finalized SBOM that misses a component of a counted child |
| ProtocolWitnesses.FindingsCanBeMissing | services/cve_matching/aggregator.py:189-206 | for any names: a run with one worker and no redelivery whose report lacks a matched sub-blob |
| ProtocolWitnesses.CrashLosesFindings | services/router/handlers/cve_match.py:51-60 | for any names: a run with one worker and no redelivery in which a stop between counter and message loses a counted child's findings for good behind a gate whose counters agree |
| ProtocolWitnesses.ExpiredClaimOpensGate | services/router/idempotency.py:15-28 | for any names: a redelivery after the claim expired counts a child twice and opens the gate early |
| ProtocolSafety.InvHolds | services/router/runner.py:132-140 | the inductive invariant holds in every state reachable under `Prompt`: any interleaving, crash, or expiry of claims, and late deliveries of untaken messages and of `firmware.matched` |
| ProtocolSafety.PassingGateIsSound | services/cve_matching/aggregator.py:44-54 | past a passing gate the job is complete exactly when the counters agree, and they do if the marker was set before the total was read |
| ProtocolSafety.GateComplete | services/cve_matching/aggregator.py:54 | the counting argument: as many matched as counted sub-blobs, nested, means the same sub-blobs |
| ProtocolTheorems.UnpackedByOne | services/router/runner.py:132-140 | over every run under `Prompt` two workers never unpack the same job |
| ProtocolLate.PromptIsSafe | services/router/idempotency.py:3-7 | under `Prompt` counters count distinct sub-blobs, no job is unpacked twice at a time or when it is done or rejected, and no fragment is overwritten |
| ProtocolLate.LateDeliveryHarms | services/router/runner.py:132-140 | the converse: from any state, a single delivery against `Prompt` can be continued to one of these |
| ProtocolLate.LateAnalyzedCountsTwice | services/router/handlers/cve_match.py:51-52 | a sub-blob counted as matched whose claim ran out: its message again leads to a matched counter of one more than the matched sub-blobs |
| ProtocolLate.LateExtractedCountsTwice | services/router/handlers/analysis.py:45-60 | the same for the analysis counter |
| ProtocolLate.LateTriagedClashes | services/router/handlers/unpack.py:37-61 | a late triaged message of a job that was or is being unpacked starts a clashing unpack |
| ProtocolLate.LateExtractedApart | services/router/handlers/analysis.py:45-60 | a late extracted message of a sub-blob that was or is being analysed parts the counter from the sub-blobs |
| ProtocolLate.LateAnalyzedOverwrites | services/router/handlers/cve_match.py:45-49 | a late analyzed message of a sub-blob that was or is being matched can overwrite its fragment |
| ProtocolOnce.AtMostOneCompletion | services/cve_matching/aggregator.py:144-166 | over every run, with no reliance on claims: at most one completion per job, and both artifacts are stored and agree with the finalized document |
| ProtocolOnce.CompletionIsPermanent | services/cve_matching/reports.py:62-71 | a finalized report and the artifacts behind an emitted completion never change in any extension of the run |
| ProtocolOnce.FinalKept | services/cve_matching/reports.py:67-68 | no step changes the report of a finalized document |
| ProtocolOnce.FinalizedFindings | services/cve_matching/aggregator.py:57-91 | every finalized report flattens distinct slots, so counts each sub-blob it saw once and in order; its statistics count each tier and add up |
| Protocol.OnlyActorMoves | services/router/runner.py:120-141 | a step leaves every other worker where it was |
| Protocol.SameClaimIff | services/router/runner.py:112-116 | two messages share a claim exactly when they are of one kind and about the same job or sub-blob |
| Report.RecordSetsOneSlot | services/cve_matching/reports.py:49-56 | recording sets one slot, leaves every other slot's place and contents, and never makes a second entry |
| Report.RecordTwice | services/cve_matching/reports.py:54-55 | recording a redelivered message again changes nothing |
| Report.FindingsFromPartial | services/cve_matching/aggregator.py:57-64 | the nested loops compute the flattening of the recorded slots |
| Report.FlattenCountsEachBlobOnce | services/cve_matching/aggregator.py:57-64 | the findings of a recorded sub-blob are as many as its matches, the k-th holding the k-th match; others have none |
| Report.FlattenAt | services/cve_matching/aggregator.py:57-64 | every match of every slot is one finding with its sub-blob, in slot order and then match order, and there are no others |
| Report.SummaryStats | services/cve_matching/aggregator.py:86-91 | the counter holds a tier exactly when it occurs, with its number of findings |
| Report.TierCountsSum | services/cve_matching/aggregator.py:86-91 | `by_tier` sums to `total_findings` |
| Report.CountTierIs | services/cve_matching/aggregator.py:86-91 | a tier's number is that of the places where it stands |
| Report.MergeSbomComponents | services/cve_matching/aggregator.py:67-83 | the merged list holds every component of every fragment, each once, at its first occurrence |
| Report.ConcatAppend | services/cve_matching/aggregator.py:67-83 | fragments are joined in their order, each in its own |
| Collections.DedupInOrder | services/cve_matching/aggregator.py:67-83 | dropping repetitions leaves the order of first occurrences |
| Stores.Redis.ClaimMessage | services/router/idempotency.py:18-28 | true exactly when this call set the key; a taken claim is left alone |
| Stores.Redis.ExpireClaim | services/router/idempotency.py:15-28 | takes away one claim and nothing else |
| Stores.ReportStore.RecordSubBlob | services/cve_matching/reports.py:49-56 | one slot of one document is set; status and report stay |
| Stores.ReportStore.Finalize | services/cve_matching/reports.py:62-71 | true exactly for the call that made the transition; otherwise nothing changes |
| Stores.ArtifactStore.ListFragments | services/cve_matching/artifacts.py:71-76 | lists each fragment of the job once and nothing else |
| Router.Router.HandleUnpack | services/router/handlers/unpack.py:37-61 | uploads exactly the yielded children under this job, counts and announces them, then sets the marker or rejects, never both, and touches nothing else; a legal run |
| Router.Router.HandleArchive | services/router/handlers/unpack.py:43-60 | with the walk behind it: the marker is set exactly when the image unpacks within the bounds, and then exactly its leaves were fanned out; otherwise the job is rejected after a prefix of them |
| Router.Router.Submit | services/router/handlers/triage.py:49-50 | a clean upload produces one triaged message and changes nothing else |
| Router.Router.FanOut | services/router/handlers/unpack.py:45-50 | files one child under the job, counts it and announces it |
| Router.Router.HandleAnalysis | services/router/handlers/analysis.py:45-60 | increments the analysis counter, then emits; a legal run |
| Router.Router.HandleCveMatch | services/router/handlers/cve_match.py:34-60 | fragment, counter, message, in this order; a legal run |
| Router.Router.CompletionReady | services/cve_matching/aggregator.py:42-54 | the three reads decide the gate, with every early exit |
| Router.Router.AssembleReport | services/cve_matching/aggregator.py:114-142 | the report is the flattening of the slots read, its statistics, and the merged listed fragments |
| Router.Router.FinalizeJob | services/cve_matching/aggregator.py:104-149 | true exactly when this call finalized the job |
| Router.Router.Aggregate | services/cve_matching/aggregator.py:169-208 | records the slot; completes exactly past an open gate nobody finalized behind, with the findings of the document; nothing else changes; a legal run |
| Router.Router.ProcessMessage | services/router/runner.py:120-141 | a message whose claim is there changes nothing; otherwise it is claimed and has exactly the effect of its topic's handler, also when it comes late |
| Router.Router.Consume | services/router/runner.py:172-205 | whatever is uploaded, polled or expires, in any order and repetition, completions are distinct; under `Prompt`, so whenever nothing but a `firmware.matched` is polled after its claim ran out, finalized jobs are complete and rejected jobs never complete |
| Unpack.Walker.Walk | services/ingestion/unpack.py:95-128 | terminates for every extractor; succeeds if and only if the tree is at most 8 levels high, extracts, and (input not empty) totals at most 100 times the input; yields the leaves in depth-first order with the containers they came out of, or on abort a prefix of them; ids are distinct either way |
| Unpack.EmitIsWell | services/ingestion/unpack.py:110-126 | what the walk yields for a tree are its leaves in order, with growing ids, each younger than its container's |
| Unpack.Walker.Recurse | services/ingestion/unpack.py:110-126 | one node: no error exactly when its subtree fits under the cap and into what the ratio leaves |
| Unpack.Walker.Descend | services/ingestion/unpack.py:123-126 | one child: its bytes are counted and checked before it is opened |
| Unpack.SelfContainingNeverFits | services/ingestion/defenses.py:92-98 | a file that contains itself fits no height, so its walk always aborts |
| Positions.FitsIff | services/ingestion/unpack.py:110-126 | a tree passes the depth cap exactly when no position lies deeper and the file at every position extracts |
| Positions.WalkYieldsLeaves | services/ingestion/unpack.py:110-126 | a successful walk yields exactly the files at the leaf positions, in depth-first order, and two have the same parent id exactly when they came out of the same container |
| Positions.TotalSizeIs | services/ingestion/unpack.py:123-125 | the size the ratio limits is the sum of the file sizes at all positions below the root, each once |
| NumberTheory.GcdBezout | services/ingestion/bloom.py:14-18 | the greatest common divisor divides both numbers and is a combination of them |
| NumberTheory.DividesProduct | services/ingestion/bloom.py:14-18 | m divides d*h exactly when m/gcd(m,h) divides d |
| Bloom.PositionsCoincide | services/ingestion/bloom.py:41 | two positions coincide exactly when their distance is a multiple of m/gcd(m,h2) |
| Bloom.PositionsStep | services/ingestion/bloom.py:32-41 | the first position is the first digest modulo m, each next one the second digest further on |
| Bloom.DistinctPositions | services/ingestion/bloom.py:32-41 | there are exactly min(k, m/gcd(m,h2)) distinct positions, for all m > 0, k, h1, h2 |
| Bloom.LargeFactorIsComposite | services/ingestion/bloom.py:16-17 | 159751 = 107 * 1493 is not a prime |
| Bloom.LargeFactorCoprime | services/ingestion/bloom.py:14-18 | 159751 has no factor in common with 1 to 6 |
| Bloom.SevenDistinctIff | services/ingestion/bloom.py:14-18 | at the pinned sizing and odd h2 the seven positions are distinct if and only if 159751 does not divide h2 |
| Bloom.BloomFilter.Add | services/ingestion/bloom.py:53-55 | sets the item's bits and no others; the bitmap stays that of the filter's history |
| Bloom.BloomFilter.Contains | services/ingestion/bloom.py:57-60 | true exactly when all the item's bits are set, and always for an item in the filter's history |
| Bloom.BloomFilter.AddIfAbsent | services/ingestion/bloom.py:62-78 | true exactly when some bit of the item was unset, and then the item is new to the filter's history; its bits are set afterwards |
| Bloom.BitmapRefinesSet | services/ingestion/bloom.py:53-78 | over any history the bits are those of the added items: no false negatives, and a new answer means never added |
| Bloom.OfferedIff | services/ingestion/bloom.py:53-78 | the offered items are those some addition named |
| Bloom.NewAnswersBounded | services/ingestion/bloom.py:62-78 | at most m calls ever answer that an item is new |
| Bloom.BitsBounded | services/ingestion/bloom.py:53-55 | at most k bits are set for each added item |
| Cpe.RoundTripIff | services/cve_matching/cpe.py:29-80 | parsing a built name gives back the normalized fields if and only if none holds a colon or backslash-slash |
| Cpe.BuildInjective | services/cve_matching/cpe.py:67-80 | building is injective up to normalization on such fields |
| Cpe.UnescapeIff | services/cve_matching/cpe.py:24-26 | unescaping a colon-free field changes nothing exactly when it has no backslash-slash |
| Cpe.UnquotePair | services/cve_matching/cpe.py:24-26 | an escaped character becomes itself and the text around it is read on its own |
| Cpe.FieldSameIff | services/cve_matching/cpe.py:73-75 | two texts give the same field exactly when they agree up to surrounding blanks and case, a blank one being the wildcard |
| Cpe.BuiltFields | services/cve_matching/cpe.py:77-80 | a built name has thirteen fields: prefix, the three given, seven wildcards |
| Cpe.ParsesFormatted | services/cve_matching/cpe.py:36-49 | a formatted name with the prefix in any case, blanks around it and anything after the version: the four fields read, unescaped and lower-cased but for the version |
| Cpe.ParsesUri | services/cve_matching/cpe.py:52-62 | a name in the older binding: refused exactly without a product, otherwise its fields with their defaults |
| Text.LowerSameIff | services/cve_matching/cpe.py:73-75 | lower-casing forgets the case of ASCII letters and nothing else |
| Text.StripIs | services/cve_matching/cpe.py:36 | stripping takes away the blanks at both ends, all of them, and nothing else |
| Text.LineEndsStripped | services/cve_matching/cpe.py:36 | spaces, tabs and line ends around a text make no difference |
| Families.ProductsAreOwn | services/cve_matching/config.py:127-151 | every listed product belongs to its family and to no other |
| Families.FamilyForIff | services/cve_matching/config.py:142-151 | a product belongs to a family exactly when the family lists it, up to surrounding blanks and case |
| Normalize.ScopeIgnoresTrimming | services/cve_matching/cpe.py:83-97 | a name's family does not depend on surrounding blanks |
| Normalize.InScopeCpes | services/cve_matching/cpe.py:91-97 | the loop computes the scoped names in order of first occurrence |
| Normalize.ScopedMembers | services/cve_matching/cpe.py:91-97 | exactly the trimmed in-scope names, each once, all of them still in scope |
| Normalize.ScopedInOrder | services/cve_matching/cpe.py:91-97 | the scoped names stand in the order in which they first come up |
| Normalize.NormalizeCandidateIs | services/cve_matching/normalize.py:53-72 | the component is normalized; blanks around vendor and product and their case make no difference; a version recognized in the version field is used |
| Normalize.CandidateCpes | services/cve_matching/normalize.py:75-102 | the names in the order of the spellings, each at its first occurrence; none without a version |
| Normalize.CandidateMembers | services/cve_matching/normalize.py:75-102 | no name twice, and exactly the built names of the spellings with a product |
| Normalize.CandidateNamesIff | services/cve_matching/normalize.py:75-102 | with a version, the names are exactly those of every vendor with every product of the family, and of the reported spelling |
| Normalize.EverySpellingIsTried | services/cve_matching/normalize.py:88-92 | every vendor and product of the component's family gives a candidate name |
| Normalize.SpellingsAt | services/cve_matching/normalize.py:90-92 | the spellings run through the products for each vendor in turn |
| Normalize.BuiltFamilyIs | services/cve_matching/cpe.py:67-88 | the family of a built name is that of the piece after the first colon of `vendor:product`, for all fields |
| Normalize.CandidatesKeepFamilyIff | services/cve_matching/normalize.py:75-102 | every candidate name parses back to the component's own family if and only if there is no version or no product, so no name, or that piece of the reported spelling belongs to the family |
| Normalize.CandidateKeepsFamily | services/cve_matching/normalize.py:75-102 | for a reported vendor and product without a colon every candidate name does |
| Normalize.ColonInVendorChangesFamily | services/cve_matching/normalize.py:94-101 | for any two families and any version: a colon in the vendor makes the component's candidate names hold one of the other family |
| Normalize.ColonInProductGivesFamily | services/cve_matching/normalize.py:94-101 | for any family: and any version: a colon in the product gives a component without a family a candidate name of that family |
| Thresholds.TierBands | services/cve_matching/config.py:42-45 | the tiers are bands of scores, closed below and open above, as documented |
| Thresholds.TierMonotone | services/cve_matching/tiering.py:35-48 | a higher score never gets a lower tier |
| Matcher.FoldIsMaximum | services/cve_matching/matcher.py:136-148 | the fold keeps for every offered CVE a maximum of its offers by tier and score |
| Matcher.OffersIff | services/cve_matching/matcher.py:89-125 | exactly what a version candidate offers: every row under a candidate name, confirmed and without a score; only without any, every similar row that reaches a tier of its family, or else the component's |
| Matcher.ReportsBestOffers | services/cve_matching/matcher.py:127-161 | the report names exactly the offered CVEs, each with an offer of highest tier and, within it, highest score; only weak tiers carry a rationale |
| Matcher.ConfirmedIffExact | services/cve_matching/matcher.py:89-105 | a CVE is reported as confirmed exactly when a row of it is stored under a candidate name |
| Matcher.SortedByTierAndId | services/cve_matching/matcher.py:127-129 | stronger tiers first, ids in dictionary order within a tier |
| Matcher.MatchSubBlob | services/cve_matching/matcher.py:55-133 | strictly sorted, exactly the best candidates, one entry per CVE, every entry valid; the SBOM entries are the resolved components, each at its first occurrence and naming its sub-blob |
| Matcher.LookUpAll | services/cve_matching/matcher.py:90-92 | the exact matches are the rows under all candidate names, in order |
| Matcher.ResultMeetsContract | shared/contracts/events.py:146-180 | every emitted entry satisfies the output contract, whatever the narrator answers |
| Matcher.OffersSound | services/cve_matching/matcher.py:94-125 | exact offers are confirmed without a score; similar ones have a score in [0, 1] and a tier that is emitted |
| Matcher.OrderIrrelevant | services/cve_matching/matcher.py:71-129 | without a narrator the list depends only on the set of version candidates |
| Matcher.SortedUnique | services/cve_matching/matcher.py:127-129 | sorting has one result |
| Text.StringLessIff | services/cve_matching/matcher.py:127-129 | ids compare as in a dictionary |
| Matcher.SbomComponents | services/cve_matching/matcher.py:74-87 | the loop lists exactly the resolved components, each at its first occurrence |
| Matcher.ResolvedMembers | services/cve_matching/matcher.py:74-87 | the SBOM lists exactly what candidates with a product and a version resolve to, each once, in the order of the candidates |
| Etl.RecordsFromCve | services/cve_matching/nvd_etl.py:83-112 | one record for each scoped name, in order; none without an id |
| Etl.RecordsCover | services/cve_matching/nvd_etl.py:83-112 | every record in scope and with its CVE's id and description, the family of its name and its own embedding; no key twice; a record for exactly the in-scope names |
| Etl.InMemoryCorpus.Upsert | services/cve_matching/corpus.py:87-90 | the corpus after upserting records one by one |
| Etl.UpsertDecides | services/cve_matching/corpus.py:87-90 | upserting touches exactly the keys of the records, whose rows no longer depend on what was there |
| Etl.LastWins | services/cve_matching/corpus.py:87-90 | the row of a CVE and a name is the last record upserted for them |
| Etl.CorpusHolds | services/cve_matching/nvd_etl.py:125-156 | after ingesting, the row of a CVE and a name is made from the last object with this id that has the name in scope; without one it is as before |
| Etl.UpsertTwice | services/cve_matching/corpus.py:87-90 | ingesting the same records again changes nothing |
| Etl.IngestCves | services/cve_matching/nvd_etl.py:125-156 | for every batch size the corpus of record-by-record upserts; counts per family are exact and add up to the number upserted |
| Etl.CountFamilies | services/cve_matching/nvd_etl.py:146-147 | adds to each family's count its number of records |
| Etl.CountFamilyIs | services/cve_matching/nvd_etl.py:146-147 | a family's count is the number of its records |
| Etl.LimitKeptIff | services/cve_matching/nvd_etl.py:175-213 | no more than `max_records` objects are yielded if and only if it is at least one or there is none |
| Etl.FetchNvd | services/cve_matching/nvd_etl.py:175-213 | for every server that serves slices, terminates and yields the first objects, once each and in order: all of them, or as many as a limit of at least one allows, or one |
| Etl.RunFullEtl | services/cve_matching/nvd_etl.py:125-213 | fetching and ingesting together leave the upserts of exactly the first objects |
| Cosine.CauchySchwarz | services/cve_matching/corpus.py:117-123 | dot*dot <= na*nb for all vectors |
| Cosine.Sums | services/cve_matching/corpus.py:117-123 | the loop's three sums, with that bound |
| Cosine.Similarity | services/cve_matching/corpus.py:112-131 | in [0, 1]; zero for a zero vector or an inner product of at most zero; otherwise its product with the two norms is the inner product, so the clamp at one never fires |
| Cosine.SelfSimilarity | services/cve_matching/corpus.py:112-131 | a non-zero vector has similarity one with itself |
| Cosine.ScaleInvariant | services/cve_matching/corpus.py:112-131 | scaling the vectors by positive factors does not change it |
| Cosine.DotAppend | services/cve_matching/corpus.py:117-123 | the sum over joined vectors is the sum of both, over one coordinate its product |
| Hardening.ReadsWhatIsStored | services/static_analysis/hardening.py:71-84 | reading inverts storing in both byte orders |
| Hardening.StoresWhatIsRead | services/static_analysis/hardening.py:71-84 | storing inverts reading, so a field has one value per byte order |
| Hardening.LowestByte | services/static_analysis/hardening.py:71-84 | the lowest byte is the first in the little order and the last in the big one |
| Hardening.UnpackHeader | services/static_analysis/hardening.py:66-84 | the header fields of either class, or an error exactly when the file is shorter than the header |
| Hardening.UnpackSegment | services/static_analysis/hardening.py:94-102 | one program header, or an error exactly when it is cut off |
| ElfLayout.MemberIsRead | services/static_analysis/hardening.py:71-102 | a member written in its place in a record is read back, whatever surrounds the record |
| ElfLayout.HeaderIsRead | services/static_analysis/hardening.py:66-84 | a file header written as the ABI lays it out is read back, in both classes and byte orders |
| ElfLayout.Segment64IsRead | services/static_analysis/hardening.py:94-97 | a 64-bit program header written by the ABI is read back |
| ElfLayout.Segment32IsRead | services/static_analysis/hardening.py:98-102 | a 32-bit program header written by the ABI is read back |
| ElfLayout.EntryIsRead | services/static_analysis/hardening.py:115-134 | a dynamic entry written as tag and value of one word each is read back, in both classes and byte orders |
| ElfLayout.ArrayBindsNowIff | services/static_analysis/hardening.py:115-134 | a written dynamic array binds now exactly when an entry before the first null has tag 24, or tag 30 with 0x8 in its value, or tag 0x6FFFFFFB with 0x1 |
| ElfLayout.FlagsOfImage | services/static_analysis/hardening.py:86-112 | the flags of an image from its segments, with the numbers of the ABI |
| Hardening.VisibleIff | services/static_analysis/hardening.py:90-93 | the loop looks at exactly the entries that lie inside the file |
| Hardening.ProperEntrySizeIsReadable | services/static_analysis/hardening.py:90-102 | with the ABI's entry size no visible entry raises an error |
| Hardening.LastOfKindIs | services/static_analysis/hardening.py:104-109 | the segment used for a type is the last visible one of that type |
| Hardening.NoneOfKindIs | services/static_analysis/hardening.py:104-109 | there is none exactly when no visible entry has the type |
| Hardening.ParseElf | services/static_analysis/hardening.py:65-112 | an error exactly for malformed files; otherwise the flags of the last stack, relro and dynamic entries |
| Hardening.HasBindNow | services/static_analysis/hardening.py:115-134 | true exactly when an entry before the first null asks for immediate binding; terminates, all reads in bounds |
| Hardening.AnalyzeHardening | services/static_analysis/hardening.py:49-62 | total on arbitrary bytes and strings; defaults exactly when the file is no ELF or malformed, up to the canary |
| Hardening.ContainsIff | services/static_analysis/hardening.py:51 | a string contains the canary symbol exactly when it is some text, the symbol and some text |
| Hardening.TrailingBytesIrrelevant | services/static_analysis/hardening.py:65-134 | bytes appended after headers and dynamic array change no flag |
| Paths.IsWithinIff | services/ingestion/defenses.py:47-56 | the string test holds exactly when the root's components begin the candidate's; for a bare root only the root itself (and, for `/`, `//` paths) |
| Paths.AgreesUnlessBareRoot | services/ingestion/defenses.py:52-56 | test and containment agree for all candidates if and only if the root is not bare |
| Paths.RenderIsRead | services/ingestion/defenses.py:47-49 | normalizing is idempotent |
| Paths.SafeJoinIff | services/ingestion/defenses.py:59-71 | succeeds exactly when the member does not look absolute and walking its pieces from the root ends in the root; the result leads there |
| Paths.PlaceOfJoin | services/ingestion/defenses.py:68 | joining walks the member's pieces from where the base leads |
| Paths.PlainMembersAccepted | services/ingestion/defenses.py:59-71 | no member without a dot-dot piece is refused below a proper root |
| Paths.PieceLeads | services/ingestion/defenses.py:47-49 | `..` leads to the parent and from the top to the top, `.` and an empty piece nowhere, any other piece one component down |
| Paths.UpUndoesDown | services/ingestion/defenses.py:47-49 | joining a component and `..` leads back |
| Paths.UpUndoesDownIff | services/ingestion/defenses.py:47-49 | written out after a slash it does so exactly unless the path is `/` or `//` |
| Paths.LeadingSlashes | services/ingestion/defenses.py:47-49 | exactly two leading slashes are kept apart |
| Paths.AbsoluteRefused | services/ingestion/defenses.py:59-71 | a member that begins with a slash or a backslash is refused |
| Paths.ParentRefused | services/ingestion/defenses.py:59-71 | `..` is refused below every proper root |
| Paths.ClimbAcceptedIff | services/ingestion/defenses.py:59-71 | for m without `..`: `../m` is accepted exactly when m goes down through the root's own name first |
| Paths.DownUpIrrelevant | services/ingestion/defenses.py:59-71 | `c/../m` is accepted exactly when m is |
| Locks.MutualExclusion | services/cve_matching/locks.py:26-45 | at most one client per key holds an unexpired token, over every run in which no delete comes after its lease while the key has been taken again |
| Locks.AtomicIsTimely | services/cve_matching/locks.py:36-45 | releases in one step never do that |
| Locks.RemovesOtherIff | services/cve_matching/locks.py:41-43 | the next delete takes away another's token exactly when the own lease ran out and the key was taken again |
| Locks.DeleteBreaksIff | services/cve_matching/locks.py:26-45 | after a delete a second client can get in exactly when another one's lease on the key is running |
| Locks.LateDeleteBreaksExclusion | services/cve_matching/locks.py:34-45 | for any key and lifetime: a late delete leaves two holders |
| Locks.RedisLock.Acquire | services/cve_matching/locks.py:26-32 | succeeds exactly when the key is free; then the key holds the token until it expires |
| Locks.RedisLock.Release | services/cve_matching/locks.py:34-45 | removes the key exactly when it still holds this lock's token |
| Locks.ReplayRecord | services/cve_matching/dlq_replay.py:66-100 | which of the four results, exactly; the lock is given back on every return, other keys untouched; the clock moved by the attempts and base*(2^(n-1)-1) |
| Locks.LockBlocksOnlyItsJob | services/cve_matching/dlq_replay.py:73-75 | a held lock keeps exactly the records of its job waiting, and its key is no other Redis key |
| Locks.Attempts | services/cve_matching/dlq_replay.py:79-98 | succeeds exactly when one of the first `max_attempts` emits does, stopping there |
| Locks.BackoffStep | services/cve_matching/dlq_replay.py:80-97 | doubled delays add up to base*(2^(n-1)-1) |
| Locks.DefaultBackoff | services/cve_matching/dlq_replay.py:48-50 | the default waits are 7.5 of the lock's 30 seconds |
| Hub.CoalescingMailbox.Offer | services/notifier/hub.py:31-37 | the newest offer is pending; a superseded one is counted as dropped; offers = delivered + dropped + pending |
| Hub.CoalescingMailbox.Get | services/notifier/hub.py:39-44 | delivers the newest offer; deliveries are a subsequence of the offers |
| Hub.ProgressHub.Subscribe | services/notifier/hub.py:57-65 | a fresh mailbox holding the job's newest snapshot, if any |
| Hub.ProgressHub.Unsubscribe | services/notifier/hub.py:67-72 | removes this mailbox from this job and nothing else |
| Hub.ProgressHub.Publish | services/notifier/hub.py:74-86 | exactly the job's subscribers are offered the snapshot; all subscribers stay up to date |
| Hub.ProgressHub.Receive | services/notifier/app.py:100-104 | a subscriber that reads gets the job's newest snapshot |
| FeedbackLoop.Aggregate | services/integration/feedback_loop.py:92-108 | lists exactly the families with a decided verdict, each with its tallies |
| FeedbackLoop.TallyPermuted | services/integration/feedback_loop.py:92-108 | tallies do not depend on row order |
| FeedbackLoop.TallyIs | services/integration/feedback_loop.py:92-108 | a tally is the number of rows with this verdict on a CVE of the family |
| FeedbackLoop.ValidThresholds | services/integration/feedback_loop.py:66-74 | any three numbers become a valid configuration |
| FeedbackLoop.SqueezeNeverFires | services/integration/feedback_loop.py:66-74 | on a shifted valid base the squeeze changes nothing |
| FeedbackLoop.AdjustIs | services/integration/feedback_loop.py:77-89 | a valid base moves up by 0.05 when false positives are at least the confirmed, down by 0.03 when at most a ninth of them, each threshold within the unit interval |
| FeedbackLoop.AdjustMovesTiers | services/integration/feedback_loop.py:77-89 | a tightened family never raises a score's tier, a loosened one never lowers it, in between nothing changes |
| FeedbackLoop.Recalibrate | services/integration/feedback_loop.py:111-140 | returns exactly the families whose thresholds change, and installs exactly these |
| FeedbackLoop.InstalledAreOrdered | services/integration/feedback_loop.py:126-140 | everything installed is a valid configuration |
| FeedbackLoop.RowOrderIrrelevant | services/integration/feedback_loop.py:111-140 | the same rows in any order give the same changes |
| FeedbackLoop.RecalibrateTwice | services/integration/feedback_loop.py:111-140 | recalibrating again on the same feedback changes nothing |
| FeedbackLoop.EffectiveIsPolicyIff | services/integration/feedback_loop.py:131-139 | for every valid base: a family has the thresholds its feedback asks for if and only if enough verdicts ask for a change the base can make, or the family had the base's thresholds before |
| FeedbackLoop.PolicyChangesIff | services/integration/feedback_loop.py:77-131 | a valid base changes exactly with enough decided verdicts and at least as many false positives as confirmed with the low threshold below one, or at most a ninth as many with the high one above zero |
| FeedbackLoop.OverrideGoesStale | services/integration/feedback_loop.py:131-133 | for any family: feedback in two batches leaves an override the feedback no longer asks for |
| Keys.RenderInjective | shared/redis_keys.py:18-70 | no two Redis keys coincide, for arbitrary job ids and message keys and colon-free topics |
| Keys.ListsIff | services/cve_matching/artifacts.py:30-36 | exactly which fragments a prefix finds, for arbitrary ids |
| Keys.ListsOwnFragments | services/cve_matching/artifacts.py:30-36 | for sub-blob ids without a slash: the job's own fragments and those of jobs whose id goes on after a slash |
| Keys.SlashListsForeignFragments | services/cve_matching/artifacts.py:30-36 | with a slash in a job id it finds another job's |
| Keys.ObjectsApart | services/cve_matching/artifacts.py:30-46 | fragments, SBOMs and reports of all jobs have different keys |

## Left out

- Kafka, Redis, Mongo, Postgres and object-store clients, web applications and the user interface: only the atomic accesses they offer are steps of the model; the Postgres status flip is not one of them.
- Liveness: a job need not ever complete (a worker that stops after claiming drops its message), so only safety is proved.
- Claim lifetime: claims expire at any moment (`ExpireClaim`); the counter theorems assume of it only `Prompt`, and `LateDeliveryHarms` shows that no delivery it excludes can be allowed without losing one of them (counters, single unpacks, or fragments that stay). The once-only theorems do not need it.
- Redis, reports and processes carry history fields (who claimed a key, who was counted, what was computed, who finalized, whether the counters agreed at the gate); no step reads them.
- Dead-letter replay inside the counter theorems: it produces without a key, so the claim is taken under a hash of the value and the counters would no longer count distinct sub-blobs.
- Payload validation and poison messages in `process_message`: every message of the model is well formed, and a handler that raises is a crash.
- Sub-blob ids are fresh by assumption.
- Stores.Redis.ClaimMessage: the 24 hours given to the key are not a number in the contract; a claim may be taken away at any moment by `ExpireClaim`.
- Router.Router.Consume: runs one router on its own and without crashes inside a handler; several routers and crashes are covered by the step machine.
- Stores.ArtifactStore.ListFragments: lists in some order, where the code sorts by key; the theorems hold for every order.
- Analysis payloads, version and secret regexes, entropy, embedding models, narration and digests: arbitrary functions or values.
- Real extraction, the subprocess sandbox, timeouts and temporary directories: the extractor is an arbitrary function. `check_symlink_target` and `dir_size` are not modelled.
- Unpack.Walker.Walk: the generator's suspension between yields is not modelled; what was yielded before an abort is the prefix the contract names.
- Bloom.BloomFilter.AddIfAbsent: one caller at a time, as its documentation allows.
- Floating point: scores, thresholds, similarities and delays are exact reals; rounding a score is any map into [0, 1].
- Text: ASCII lower-casing and whitespace only.
- Insertion order of the corpus and of the best-candidate dictionary: the sort that follows makes it irrelevant to the list; with equal offers that differ only in their text, the narration may depend on it.
- Etl.FetchNvd: the server answers the same question the same way, with well-formed items, and its slices do not overlap what was asked.
- Locks.ReplayRecord: other clients do not act between its own accesses; what they can do is in the step machine of the same module.
- Hub.CoalescingMailbox.Get: one reader per mailbox, which the notifier guarantees; waiting for the event is its precondition.
- POSIX only in `Paths`; the working directory is a parameter.
- Roles and tokens, `SERVICES` parsing, progress percentages, per-job indexes, job status and feedback storage: easy, or outside the core.
