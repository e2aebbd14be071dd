# A verified model of the model gateway

The model gateway puts one data plane (Go) and one control plane (Python) in front of many model providers. This project models its state-heavy components in Dafny and proves what each is for, over every input, every run or every interleaving.

| files | what they model |
|---|---|
| `Placeholder`, `Restorer`, `Tokenise`, `Detect`, `MergeOrder`, `Checksum` | personal data: finding spans, merging them, replacing them by placeholders, restoring them in one pass or chunk by chunk |
| `Holder` | the snapshot holder: lock-free reference counting with a current and a rollback slot |
| `Limiter`, `LimiterFleet` | the lease-based rate limiter, one worker and a fleet |
| `Routing`, `Promotion`, `Selection`, `Breakers`, `Execution` | candidate selection, the weighted draw, circuit breakers and the failover loop |
| `Policy`, `Pipeline` | one request from policy to restored answer |
| `AuditChain`, `AuditConsumers` | the hash-chained audit log and its at-least-once consumers |
| `Accounting`, `AccountingConsumers`, `SpendView` | usage accounting under redelivery, and the spend a worker sees |
| `Telemetry` | the bounded, drop-oldest event buffer and its draining worker |
| `StableSort`, `Sums`, `Decimal`, `Options` | shared definitions |

Code that updates things step by step is a method or a class proved against a specification function. A concurrent protocol is a state machine whose steps are the code's own atomic accesses; a run is any sequence of enabled steps. Clocks, stores, detectors, providers, random draws and the hash are parameters, and nothing is assumed of them beyond what a lemma says.

## Where the code and its comments differ

The code is followed in each case.

- `MaxPlaceholderLen` is described as the bound on what must be held back. The exact length that survives every chunking is one byte more, 65; see `Restorer.StreamingExactlyWhenPlaceholdersFit`.
- Merging detectors is described as independent of their order. For any number of detectors two orders merge alike exactly when, at every start where they put a different match first, the matches starting earlier already reach past it (`MergeOrder.OrderMattersExactly`). Without shared starts that is always so (`Detect.MergeOrderIsIrrelevant`); `Detect.SharedStartsDependOnOrder` is an input where it is not.
- An admitted probe does not always report back. `Execution.WalkLeavesProbeOut` says exactly when it does in every walk, `Execution.UnreportedProbeBlocks` what follows when it does not, and `Execution.RejectedProbeBlocks` is one such walk.
- Tokenising is not always undone: a payload that already spells an issued placeholder does not come back (`Tokenise.CollisionIsNotRestored`), nor does one with a kind outside the placeholder grammar, which the sidecar may report (`Tokenise.UnnamedKindIsNotRestored`). `Tokenise.RoundTripExactly` is the exact condition.
- The count of altered placeholders is right for every chunking exactly when those never issued have at most 65 bytes (`Restorer.MissesCountedExactlyWhenTheyFit`).
- Version checks compare with the current snapshot only, so a returning tenant or a rollback may lower a version (`SpendView.ReturningTenantMayRegress`, `SpendView.RollbackMayRegress`).
- Key management and provisioning bump a tenant's version by reading it and writing it back. When two bumps were committed in between they write a lower version, one number then stands for two spends, and a stale snapshot is accepted (`SpendView.WriteBackLowersExactly`, `SpendView.LostUpdateReusesAVersion`; `SpendView.LostUpdateForTwoRequests` is such an input). Swaps keep the spend exactly when a higher spend always came with a higher version (`SpendView.SwapsKeepSpendExactly`).

## Model

| member | source | states |
|---|---|---|
| `Placeholder.MatchLenComplete` | dataplane/internal/pii/transform.go:54 | the scan of the placeholder grammar is complete: a placeholder at the front is found, with the only length it can have |
| `Placeholder.NoOverlap` | dataplane/internal/pii/transform.go:54 | two occurrences of the grammar that share a position are one occurrence |
| `Placeholder.SubstituteSplit` | dataplane/internal/pii/stream.go:121-131 | substitution distributes over every cut that splits no placeholder it would replace |
| `Placeholder.MissesSplit` | dataplane/internal/pii/stream.go:121-131 | so does counting the placeholders nobody issued, over every cut that splits none of them |
| `Placeholder.SubstituteAround` | dataplane/internal/pii/transform.go:201-217 | a placeholder between two arbitrary texts is replaced on its own and changes the reading of neither |
| `Placeholder.GrammarAdmits` | dataplane/internal/pii/transform.go:54 | the shortest placeholders, with every kind of character a name and a number may hold |
| `Placeholder.GrammarRefuses` | dataplane/internal/pii/transform.go:54 | the nearest strings that are none: no name, no number, no underscore, another letter, a bracket missing |
| `Restorer.PendingTail` | dataplane/internal/pii/stream.go:101-117 | never more than 64 bytes are held back |
| `Restorer.UnfinishedIsHeld` | dataplane/internal/pii/stream.go:101-117 | a text that ends inside a placeholder of up to 65 bytes is never released whole |
| `Restorer.HeldBackExactly` | dataplane/internal/pii/stream.go:101-117 | what is held is exactly the last unclosed opening among the last 64 bytes and what follows it, else a single opening bracket at the end, else nothing |
| `Restorer.StreamRestorer.Push` | dataplane/internal/pii/stream.go:51-74 | whatever arrives later, what was emitted plus what is held stands for the same restored text; at most 64 bytes are held |
| `Restorer.StreamRestorer.Flush` | dataplane/internal/pii/stream.go:78-90 | everything still held is emitted, restored, and the misses in it are counted |
| `Restorer.ReleaseIsAlwaysSafe` | dataplane/internal/pii/stream.go:51-74 | the release position splits no replaceable placeholder, for every text and every continuation |
| `Restorer.StreamingEqualsRestore` | dataplane/internal/pii/stream.go:51-131 | for every response and every chunking, the pushes followed by the flush are what restoring the whole response gives |
| `Restorer.LongPlaceholderIsLost` | dataplane/internal/pii/stream.go:101-117 | every longer placeholder is lost by one particular cut |
| `Restorer.StreamingExactlyWhenPlaceholdersFit` | dataplane/internal/pii/stream.go:51-131 | streaming agrees with restoring on all chunkings of all responses if and only if every placeholder that changes has at most 65 bytes |
| `Restorer.StreamedMissesEqual` | dataplane/internal/pii/stream.go:51-131 | from any state of the restorer, any chunking counts the misses of the whole, if those never issued have at most 65 bytes |
| `Restorer.LongMissIsLost` | dataplane/internal/pii/stream.go:101-117 | every longer one is missed by one particular cut, wherever it stands in the response |
| `Restorer.MissesCountedExactlyWhenTheyFit` | dataplane/internal/pii/stream.go:51-131 | all chunkings of a response count its misses if and only if every placeholder in it that was never issued has at most 65 bytes |
| `Detect.SortByStart` | dataplane/internal/pii/detect.go:199-205 | the in-place insertion sort computes the stable sort by start |
| `StableSort.StableSortIsUnique` | dataplane/internal/pii/detect.go:199-205 | sorted order plus detector order within each start leaves only one possible result |
| `Detect.KeepEarliest` | dataplane/internal/pii/detect.go:187-196 | the greedy pass with its running end keeps exactly the specified positions |
| `Detect.WithoutOverlaps` | dataplane/internal/pii/detect.go:178-197 | sorting and the pass together, including the short-list shortcut |
| `Detect.KeepsDisjointCover` | dataplane/internal/pii/detect.go:178-197 | the kept spans are in order, start-sorted and pairwise disjoint, and every dropped span starts inside a kept one |
| `Detect.FirstFoundWins` | dataplane/internal/pii/detect.go:183-185 | among non-empty spans with one start, none but the first found is kept |
| `Detect.MergeOrderIsIrrelevant` | dataplane/internal/pii/detect.go:148-151 | two detectors that never share a start merge the same way in either order, empty spans included |
| `Detect.SharedStartsDependOnOrder` | dataplane/internal/pii/detect.go:148-151 | with a shared start, the order decides the reported kind |
| `MergeOrder.MergeStep` | dataplane/internal/pii/detect.go:178-197 | built one start at a time, the merge takes the first match found there, and only if what it has does not reach past it |
| `MergeOrder.FirstDetectorLeads` | dataplane/internal/pii/detect.go:133-152 | a start the first detector reports on is never given to the second |
| `MergeOrder.MergesAlikeExactly` | dataplane/internal/pii/detect.go:133-152 | two reports merge alike if and only if wherever their first matches differ the earlier ones already reach past it |
| `MergeOrder.OrderMattersExactly` | dataplane/internal/pii/detect.go:133-152 | the same for any number of detectors in any two orders |
| `MergeOrder.OrderIsIrrelevantWithoutSharedStarts` | dataplane/internal/pii/detect.go:148-151 | detectors of which no two share a start merge alike in every order |
| `MergeOrder.CoveredContestIsHarmless` | dataplane/internal/pii/detect.go:183-196 | a shared start inside an earlier, longer match does no harm |
| `Detect.MergedIsReplaceable` | dataplane/internal/pii/detect.go:133-152 | whatever in-bounds spans are reported in whatever order, the merged list can be replaced left to right |
| `Tokenise.TransformMatches` | dataplane/internal/pii/transform.go:147-184 | the builder loop with its per-kind counters splices the specified tokens between the unmatched stretches and records the specified originals, under every strategy |
| `Tokenise.GapsSurvive` | dataplane/internal/pii/transform.go:160-181 | every unmatched stretch reaches the output whole and in order |
| `Tokenise.IssuedAreDistinct` | dataplane/internal/pii/transform.go:170-174 | no two matches of one payload get the same placeholder |
| `Tokenise.OriginalsAreKept` | dataplane/internal/pii/transform.go:170-178 | the map takes each issued placeholder to the value it replaced |
| `Tokenise.ValuesDoNotShow` | dataplane/internal/pii/transform.go:147-184 | redacted or tokenised, two payloads that differ only in their matched values look the same |
| `Tokenise.StandsInFor` | dataplane/internal/pii/transform.go:160-198 | a redacted or tokenised value is replaced by its kind and one more than the number of earlier matches of that kind, a hashed one by its kind and digest |
| `Tokenise.RestoreActsPiecewise` | dataplane/internal/pii/transform.go:201-217 | no placeholder forms across a splice: restoring acts on each stretch and each token separately |
| `Tokenise.RoundTrip` | dataplane/internal/pii/transform.go:147-217 | tokenising then restoring gives the payload back, for every payload and mergeable match list whose unmatched text holds no issued placeholder |
| `Tokenise.RoundTripExactly` | dataplane/internal/pii/transform.go:147-217 | when no value begins with an opening bracket and no kind holds a closing one, the payload comes back if and only if no unmatched text holds an issued placeholder and every kind is one the grammar admits |
| `Tokenise.CollisionIsNotRestored` | dataplane/internal/pii/transform.go:170-174 | a payload that spells its own placeholder is not given back |
| `Tokenise.UnnamedKindIsNotRestored` | dataplane/internal/adapters/nersidecar/nersidecar.go:162-186 | a kind outside the grammar, which the sidecar passes through, is not given back |
| `Tokenise.BracketedValueMayComeBack` | dataplane/internal/pii/transform.go:201-217 | with a value that begins with an opening bracket the condition is not necessary |
| `Tokenise.UnnamedKindMayComeBack` | dataplane/internal/pii/transform.go:201-217 | nor with a kind that holds a closing one |
| `Checksum.Luhn` | dataplane/internal/pii/detect.go:219-236 | the right-to-left loop decides by the position-weighted digit sum, for at least 12 digits |
| `Checksum.WrongDigitIsCaught` | dataplane/internal/pii/detect.go:219-236 | changing any one digit of a valid string makes it invalid |
| `Checksum.SwapIsCaughtUnlessZeroNine` | dataplane/internal/pii/detect.go:219-236 | swapping two neighbours leaves it valid exactly when they are equal, or 0 and 9 |
| `Checksum.CheckDigitIsUnique` | dataplane/internal/pii/detect.go:219-236 | a number is valid exactly when its last digit is the check digit of annex B of ISO/IEC 7812-1 for the rest |
| `Checksum.ValidIban` | dataplane/internal/pii/detect.go:240-267 | the running remainder accepts exactly the strings of 15 to 34 letters and digits whose rearranged, fully expanded number is 1 modulo 97 |
| `Checksum.WrongCharacterIsCaught` | dataplane/internal/pii/detect.go:240-267 | replacing any one character of a valid IBAN by another of its kind makes it invalid |
| `Checksum.IbanCheckDigits` | dataplane/internal/pii/detect.go:240-267 | for every country code and account the check digits ISO 13616-1 computes make a valid IBAN |
| `Checksum.LettersFollowDigits` | dataplane/internal/pii/detect.go:240-267 | letters count on from ten in alphabetical order |
| `Holder.CheckMonotonic` | dataplane/internal/snapshot/holder.go:291-308 | the tenant loop refuses exactly the snapshots that lower the global version or that of a tenant present in both |
| `Holder.StepKeepsInv` | dataplane/internal/snapshot/holder.go:76-250 | every atomic step keeps the reference counts balanced, the mutex exclusive, the slots shifted in order and retirement single |
| `Holder.EveryRunIsSafe` | dataplane/internal/snapshot/holder.go:76-250 | in every interleaving a count is its holder slots plus releases owed plus leases; nothing held or leased is retired; a drained generation is retired exactly once |
| `Holder.DrainedStaysDrained` | dataplane/internal/snapshot/holder.go:88-109 | a count that reached zero never rises again |
| `Holder.FailedIterationsArePaidFor` | dataplane/internal/snapshot/holder.go:175-188 | an Acquire fails at most once per Swap or Rollback store since it began |
| `Holder.LeaseWasCurrent` | dataplane/internal/snapshot/holder.go:175-188 | in every interleaving a lease is on a generation that was current at some moment since its Acquire began |
| `Holder.UndisturbedLeaseIsCurrent` | dataplane/internal/snapshot/holder.go:175-188 | with no Swap or Rollback store since its Acquire began, a lease is on the generation that is current now |
| `Holder.StoresAreSwitches` | dataplane/internal/snapshot/holder.go:202-250 | the stores an Acquire may fail for are exactly the times the current generation changed |
| `Holder.AcquireAlone` | dataplane/internal/snapshot/holder.go:175-188 | undisturbed, an Acquire succeeds at once, leases the current generation and raises only its count |
| `Holder.SwapAlone` | dataplane/internal/snapshot/holder.go:202-229 | undisturbed, a Swap is refused exactly for a snapshot that is not monotonic; otherwise the new snapshot is served and the old one kept |
| `Holder.RollbackAlone` | dataplane/internal/snapshot/holder.go:237-250 | undisturbed, a Rollback serves what was displaced last and leaves nothing to roll back to; without one it changes nothing |
| `Holder.InFlightIsExact` | dataplane/internal/snapshot/holder.go:266-283 | in every reachable state, swaps and rollbacks under way included, the figure is the number of leases; it is one too low exactly if the holder gave its own reference back between the two reads |
| `Holder.WithoutRollbackVersionsRise` | dataplane/internal/snapshot/holder.go:202-229 | without a rollback each generation ever served is monotonic over the one before |
| `Holder.GlobalVersionNeverFalls` | dataplane/internal/snapshot/holder.go:202-229 | so between any two generations served, however far apart, the global version does not fall |
| `Limiter.LocalBucket.Take` | dataplane/internal/limits/bucket.go:51-70 | expiry, spending and the refill signal of one bucket |
| `Limiter.LocalBucket.BeginRefill` | dataplane/internal/limits/bucket.go:74-82 | only the first caller begins a refill |
| `Limiter.LocalBucket.Grant` | dataplane/internal/limits/bucket.go:86-95 | a grant adds its permits, moves the expiry and ends the refill |
| `Limiter.GrantedIsTheAdvance` | dataplane/internal/limits/limiter.go:211-232 | a lease grants exactly the part of the counter's advance that lies below the limit |
| `Limiter.Worker.LeaseFrom` | dataplane/internal/limits/limiter.go:211-232 | permits handed out are the difference of the counter capped at the limit, before and after; without the store a whole lease, counted as failed open |
| `Limiter.Worker.TakePermit` | dataplane/internal/limits/limiter.go:185-207 | take, refill and retake as one request, with the store up or down |
| `Limiter.AccountsHold` | dataplane/internal/limits/limiter.go:185-232 | after any number of requests, the permits left are the counter less the requests, both capped at the limit |
| `Limiter.RefinesPlainCounter` | dataplane/internal/limits/limiter.go:185-232 | one worker, sequential requests in one window: exactly the first `limit` requests are admitted, for every lease size |
| `Limiter.NothingSpentAfterExpiry` | dataplane/internal/limits/bucket.go:51-70 | a permit is spent only up to the expiry of its window; after it a lease is worth nothing |
| `Limiter.GrantLastsItsWindow` | dataplane/internal/limits/bucket.go:86-95 | a grant can be spent exactly until its window ends; a grant of nothing only ends the refill |
| `Limiter.FailsOpen` | dataplane/internal/limits/limiter.go:185-232 | without the store a request that finds no permits is admitted all the same, unless another refill is under way |
| `Limiter.RefillsOnlyWhenEmpty` | dataplane/internal/limits/limiter.go:185-207 | the store is asked exactly when nobody is refilling and the request finds an expired lease or leaves nothing behind |
| `Limiter.AtMostOneLeaseAhead` | dataplane/internal/limits/limiter.go:185-232 | until the limit is reached the store is never charged more than one lease ahead of the requests |
| `LimiterFleet.StepConserves` | dataplane/internal/limits/limiter.go:185-232 | every step of every goroutine conserves permits: granted equals spent, expired, banked and in flight |
| `LimiterFleet.StepRefillsOnce` | dataplane/internal/limits/bucket.go:74-95 | no step lets two goroutines refill one bucket |
| `LimiterFleet.AloneIsOneRequest` | dataplane/internal/limits/limiter.go:185-232 | a goroutine nobody interferes with runs through the steps to the bucket, counter and answer of one sequential request |
| `LimiterFleet.AdmissionIsBounded` | dataplane/internal/limits/limiter.go:185-232 | in every interleaving of any workers and goroutines, admissions never exceed the limit plus one lease per store failure; without failures grants are the smaller of counter and limit |
| `LimiterFleet.GrantsKeepUp` | dataplane/internal/limits/limiter.go:211-232 | in every run in which no failed call was counted, grants are the smaller of counter and limit |
| `Routing.PriceRange` | dataplane/internal/router/router.go:398-410 | the loop finds the range that `Range` proves to bound every price and to be attained at both ends |
| `Routing.CheapestAndDearest` | dataplane/internal/router/router.go:366-371 | the cheapest candidate gets the whole price share and, if prices differ, the dearest none |
| `Routing.EvenSteps` | dataplane/internal/router/router.go:366-371 | in between, equal steps in price cost equal steps of the share |
| `Routing.ScoreAtTheEnds` | dataplane/internal/router/router.go:360-394 | what the cheapest or dearest, nearby or far away, scores under each objective |
| `Routing.ScoreStaysInBand` | dataplane/internal/router/router.go:360-396 | price and locality never lower a score below health nor raise it above health times the objective's band |
| `Routing.CheaperNeverScoresLower` | dataplane/internal/router/router.go:366-394 | at equal health and place the cheaper candidate never scores lower, under every objective |
| `Routing.NearerNeverScoresLower` | dataplane/internal/router/router.go:372-394 | at equal health and price a candidate in the gateway's region never scores lower |
| `Routing.HealthOutranksPrice` | dataplane/internal/router/router.go:355-396 | a candidate whose health clears another's whole band is never ordered behind it |
| `Routing.ReferencePrice` | dataplane/internal/router/router.go:412-424 | the price is that of the expected tokens, of a thousand if none are expected; dearer rates never cost less |
| `Routing.ObjectivesPrefer` | dataplane/internal/router/router.go:372-394 | at equal health cost takes the cheapest far away over the dearest nearby, latency the nearby at any price, balanced sides with cost |
| `Routing.HealthBuysPriceAndPlace` | dataplane/internal/router/router.go:378-394 | how much more health makes up for price and place, exactly, by objective |
| `Routing.EligibleExactly` | dataplane/internal/router/router.go:233-249 | a deployment is passed over exactly for having no weight, a tier below the floor, a capability missing, or no provider speaking the endpoint |
| `Routing.UnknownTenantIsStrict` | dataplane/internal/core/snapshot.go:481-486 | a tenant nobody configured gets the strictest floor |
| `Routing.AliasPrecedence` | dataplane/internal/core/snapshot.go:491-505 | a tenant's own alias wins over a global one of the same name, which wins over the base model |
| `Routing.KeepsCatalogOrder` | dataplane/internal/core/snapshot.go:507-517 | the deployments of a key are all of the catalog with that key, in catalog order |
| `Routing.TimesReachable` | dataplane/internal/router/router.go:227-232 | a deployment is met once for each of its entries and each target that names its key |
| `Promotion.Promote` | dataplane/internal/router/router.go:308-337 | the in-place draw and rotation compute the specified list, including every case that leaves it untouched |
| `Promotion.RotateInPlace` | dataplane/internal/router/router.go:328-334 | the winner comes first and everyone else keeps their order |
| `Promotion.WinnerOwnsItsStretch` | dataplane/internal/router/router.go:324-336 | position i wins exactly when the target lies in its stretch of the running weights |
| `Promotion.ShareOfTraffic` | dataplane/internal/router/router.go:308-341 | every draw in [0, 1) finds a winner, and candidate i wins on an interval whose length is its weight times health over the total |
| `Promotion.DrawnLeads` | dataplane/internal/router/router.go:308-337 | with weights that differ, a draw in candidate i's stretch puts i first and leaves everyone else in order |
| `Promotion.UndrawnIsUntouched` | dataplane/internal/router/router.go:308-322 | with one weight for all, or nobody healthy, the list stays as it is |
| `Promotion.TotalIsWeightTimesHealth` | dataplane/internal/router/router.go:339-341 | each candidate adds its weight times its health to the total |
| `Promotion.PromotionReorders` | dataplane/internal/router/router.go:308-337 | promotion loses and adds nobody, and is the identity when it does not draw |
| `Selection.Scan` | dataplane/internal/router/router.go:227-258 | the nested loops collect the eligible candidates in catalog order and set the three flags exactly |
| `Selection.Select` | dataplane/internal/router/router.go:226-288 | selection succeeds exactly when some deployment of the catalog that the model name leads to is eligible, and returns them ranked with the drawn one in front; the reason for a refusal names the first filter nobody passed |
| `Selection.ApplyObjective` | dataplane/internal/router/router.go:360-396 | the scoring loop scores every candidate against the same price range |
| `Selection.ListIsTheEligibleOnes` | dataplane/internal/router/router.go:220-288 | for every catalog, request and draw the list holds only eligible deployments of the catalog that the model name leads to, each at its own health, and is the scored scan reordered |
| `Selection.EverybodyIsOffered` | dataplane/internal/router/router.go:226-288 | every deployment stands in the list once for each of its entries and each target naming its key if it is eligible, and otherwise not at all |
| `Selection.TiesKeepScanOrder` | dataplane/internal/router/router.go:278-280 | candidates of one score keep the order of the scan: targets first, then the catalog |
| `Selection.FailoverIsBestFirst` | dataplane/internal/router/router.go:278-286 | whoever is drawn, everyone behind the head is in score order |
| `Breakers.CircuitBreaker.Allow` | dataplane/internal/router/breaker.go:108-131 | admission and the move to half-open |
| `Breakers.CircuitBreaker.Succeed` | dataplane/internal/router/breaker.go:135-154 | a success clears the probe and closes at the last required one |
| `Breakers.CircuitBreaker.Fail` | dataplane/internal/router/breaker.go:158-179 | a failure clears the probe, counts, and opens or reopens |
| `Breakers.NothingAdmittedWhileCooling` | dataplane/internal/router/breaker.go:108-179 | over every history with a running clock nothing is admitted within a cooldown of any opening |
| `Breakers.OpensAtThreshold` | dataplane/internal/router/breaker.go:158-179 | a closed breaker opens exactly when the uninterrupted run of failures reaches the threshold |
| `Breakers.ClosesAfterSuccesses` | dataplane/internal/router/breaker.go:135-154 | a half-open breaker closes exactly at the last required success, with no failure since it went half-open |
| `Breakers.OneProbeAtATime` | dataplane/internal/router/breaker.go:108-179 | in a half-open stretch admissions exceed outcomes by at most one |
| `Breakers.SilentProbeBlocks` | dataplane/internal/router/breaker.go:119-131 | until some outcome arrives for a silent probe, everything is refused |
| `Breakers.LastOpening` | dataplane/internal/router/breaker.go:158-179 | an open breaker stands at the time of its last opening |
| `Breakers.OpenAdmitsAfterItsCooldown` | dataplane/internal/router/breaker.go:108-131 | over every history an open breaker admits exactly from one cooldown after its last opening on, and is then half open with its probe out |
| `Breakers.OthersAdmit` | dataplane/internal/router/breaker.go:108-131 | a closed breaker admits everybody, a half-open one exactly when no probe is out |
| `Breakers.LateFailure` | dataplane/internal/router/breaker.go:158-179 | a failure that arrives while the breaker is open restarts the cooldown exactly at the threshold, and is counted otherwise |
| `Breakers.FailedProbeReopens` | dataplane/internal/router/breaker.go:135-179 | a failed probe opens the breaker again at once, and a late success leaves an open one open |
| `Execution.Router.Execute` | dataplane/internal/router/router.go:470-567 | for every list, breaker table, oracle and interference the visits form a valid walk, and verdict, attempts and breakers are that walk's; the walk stops early only at an answer, a final error, a cancelled wait or a spent budget, and succeeds exactly if somebody answered |
| `Execution.WalkIsUnique` | dataplane/internal/router/router.go:470-567 | the conditions on a walk leave only one |
| `Execution.VisitsAreExplained` | dataplane/internal/router/router.go:489-513 | a position is skipped exactly when its breaker refuses, abandoned exactly when its wait is cancelled, and called exactly when neither happens and its provider is known |
| `Execution.FailureMeansAllWereTried` | dataplane/internal/router/router.go:476-566 | in a failed run every position within the attempts and the budget, with no final error or cancelled wait before it, was skipped, abandoned, had no provider, or was called and failed |
| `Execution.ReportedErrorIsTheLast` | dataplane/internal/router/router.go:541-566 | the error of a failed run is that of the last position that failed or lost its provider |
| `Execution.SuccessIsTheLastVisit` | dataplane/internal/router/router.go:522-540 | a run succeeds exactly when some call was answered, that call is the last visit, and every earlier one let the walk go on |
| `Execution.ServerIsTheLastAttempt` | dataplane/internal/router/router.go:519-540 | on success the last attempt on record is the server's and every earlier one was skipped or failed |
| `Execution.UnavailableMeansUntried` | dataplane/internal/router/router.go:559-566 | the run reports no candidates exactly when nothing was called and no provider had vanished |
| `Execution.AttemptsAreTheVisits` | dataplane/internal/router/router.go:489-520 | the attempts record skipped and called positions in list order, with their errors |
| `Execution.TableIsPerDeployment` | dataplane/internal/router/router.go:652-662 | the shared table keeps for each deployment what its own calls alone make of a fresh breaker |
| `Execution.NoCallWhileCooling` | dataplane/internal/router/router.go:476-513 | however breakers were used before and meanwhile, no walk calls a deployment within a cooldown of any opening of its breaker |
| `Execution.ProbeIsReleasedExactlyOnReport` | dataplane/internal/router/router.go:496-552 | a probe, after any history and with anyone asking meanwhile, stays outstanding exactly after a cancelled wait, a vanished provider or a final error |
| `Execution.WalkLeavesProbeOut` | dataplane/internal/router/router.go:470-567 | the same at every position of every walk |
| `Execution.UnreportedProbeBlocks` | dataplane/internal/router/router.go:489-494 | until somebody reports, the deployment of such a probe is refused to every request at every time |
| `Execution.RejectedProbeBlocks` | dataplane/internal/router/router.go:547-552 | one concrete walk that leaves its breaker so |
| `Execution.ClosedBreakerLearns` | dataplane/internal/router/router.go:522-552 | after any history and with anyone asking meanwhile, an answer clears a closed breaker's failures, a retryable failure counts and opens it at the threshold, a final error changes nothing |
| `Policy.FirstMatch` | dataplane/internal/policy/policy.go:115-121 | the chosen rule matches and none above it does |
| `Policy.DefaultWithoutMatch` | dataplane/internal/policy/policy.go:115-134 | without a match the default effect decides and nothing is stamped |
| `Policy.MismatchHasAReason` | dataplane/internal/policy/policy.go:137-186 | a rule fails to match exactly when some condition it states is not met |
| `Policy.LaterRulesDoNotMatter` | dataplane/internal/policy/policy.go:115-134 | whatever stands below a matching rule, the decision is the same |
| `Pipeline.Session.ApplyPolicy` | dataplane/internal/gateway/pipeline.go:807-854 | refusal exactly when policy refuses; otherwise the class is stamped and the floor only raised |
| `Pipeline.Protect` | dataplane/internal/gateway/pipeline.go:922-976 | the body and map for one destination, and every way of refusing to produce them |
| `Pipeline.Session.Adapt` | dataplane/internal/gateway/pipeline.go:1046-1085 | the calls of the walk are carried out in order, each with its own protection, and the last one that reached a provider left its map |
| `Pipeline.SentIsProtected` | dataplane/internal/gateway/pipeline.go:1064-1074 | exactly the calls that reached a provider are sent, each as the protection made for that position's own tier |
| `Pipeline.ServerWroteTheMap` | dataplane/internal/gateway/pipeline.go:332-349 | after a success, through any failovers, the map in hand belongs to the attempt that served |
| `Pipeline.RoutedIsServable` | dataplane/internal/gateway/pipeline.go:1017-1040 | selection returns only deployments the request may be served by |
| `Pipeline.ServableIsEligible` | dataplane/internal/gateway/pipeline.go:1017-1040 | the request the router places asks for exactly the deployments the name leads to that serve, support it and meet all floors |
| `Pipeline.SentMeetsFloors` | dataplane/internal/gateway/pipeline.go:1017-1074 | everything sent goes to a serving deployment of the catalog at or above the tenant's, the key's and the first matching rule's floor |
| `Pipeline.StrangersStayInside` | dataplane/internal/gateway/pipeline.go:985-1040 | nothing of a tenant nobody configured leaves the trust boundary |
| `Pipeline.SensitiveIsTokenised` | dataplane/internal/gateway/pipeline.go:922-998 | outside the trust boundary restricted and confidential data are tokenised and their originals kept; internal data are redacted and kept nowhere |
| `Pipeline.WithheldExactly` | dataplane/internal/gateway/pipeline.go:922-976 | a body is withheld exactly when it would be tokenised and deep inspection was asked for but did not run, or the vault would not take what was found |
| `Pipeline.CallsGoByTheSurroundings` | dataplane/internal/gateway/pipeline.go:1046-1085 | a position of the list is called exactly if its breaker admits it then, the wait was not cancelled and its provider is there, and never without budget |
| `Pipeline.CallFailsWith` | dataplane/internal/gateway/pipeline.go:1046-1085 | a call fails with the credential's error first, then the protection's, then the provider's, each retried as it says |
| `Pipeline.DeterministicDetectorLeads` | dataplane/internal/gateway/pipeline.go:931-948 | where both detectors report on one start, what is replaced is what the deterministic one found |
| `Pipeline.PolicySeesTheRequest` | dataplane/internal/gateway/pipeline.go:807-867 | policy sees the request's own model, endpoint, roles, region, source and size: a rule that names one of them refuses exactly the requests with it |
| `Pipeline.MissingPolicy` | dataplane/internal/gateway/pipeline.go:807-840 | without policy nothing is refused or stamped; one that cannot be read refuses everything |
| `Pipeline.PlacedForThisRegion` | dataplane/internal/gateway/pipeline.go:1017-1040 | the router weighs price and place for the gateway's region and a quarter of the payload in tokens |
| `Pipeline.Handle` | dataplane/internal/gateway/pipeline.go:256-349 | whatever the outside does: forbidden exactly by the gates or policy, denied exactly by the later gates, unroutable exactly when nothing is servable; otherwise the outcome is that of the walk over the selected list. Everything sent is lawful, at most `maxAttempts` requests are sent, none after a refusal, and the answer is restored with the serving attempt's map |
| `Pipeline.EchoedResponseIsThePayload` | dataplane/internal/gateway/pipeline.go:326-349 | if the server echoes what it was sent, the caller gets the payload back, after any failovers across tiers |
| `Pipeline.ClassifiedValuesStayInside` | dataplane/internal/gateway/pipeline.go:922-998 | classified requests that differ only in detected values reach a destination outside the trust boundary as the same body |
| `Pipeline.StreamedEchoIsThePayload` | dataplane/internal/gateway/pipeline.go:656-679 | a tokenised payload echoed as a stream comes back unchanged however the stream is cut, if kinds leave room for the numbering |
| `AuditChain.ComputeHash` | controlplane/src/model_gateway_control/domain/audit.py:67-99 | feeding the parts one by one hashes the length-prefixed encoding of all of them |
| `AuditChain.FrameIsPrefixFree` | controlplane/src/model_gateway_control/domain/audit.py:67-99 | a framed part can be read off the front of anything |
| `AuditChain.EncodeInjective` | controlplane/src/model_gateway_control/domain/audit.py:67-99 | no two part lists share an encoding |
| `AuditChain.PayloadInjective` | controlplane/src/model_gateway_control/domain/audit.py:67-99 | the payload commits to every field and to the predecessor |
| `AuditChain.Verify` | controlplane/src/model_gateway_control/service/audit.py:176-219 | within the optional limit, verifying reports intact exactly for intact tables, otherwise the first row that does not fit and which kind of fault it is |
| `AuditChain.HeadDeterminesTable` | controlplane/src/model_gateway_control/service/audit.py:176-219 | with a collision-free hash, two intact tables with one head are the same table row for row |
| `AuditChain.TruncationShowsOnlyInTheHead` | controlplane/src/model_gateway_control/service/audit.py:66-82 | every truncation verifies as intact, and none keeps the head |
| `AuditChain.AuditLog.Append` | controlplane/src/model_gateway_control/service/audit.py:114-174 | a batch extends the table by its unseen entries, and the counts account for every entry |
| `AuditChain.AppendKeepsChain` | controlplane/src/model_gateway_control/service/audit.py:114-174 | appending keeps the table an intact chain numbered from one, equal to the first occurrences of everything appended |
| `AuditChain.FirstOccurrencesLoseNothing` | controlplane/src/model_gateway_control/service/audit.py:275-279 | the dedup keeps every event id delivered, once |
| `AuditChain.FirstOccurrencesAreEarliest` | controlplane/src/model_gateway_control/service/audit.py:114-174 | what is kept stands in delivery order, each entry the earliest with its event id |
| `AuditConsumers.EveryRunKeepsTheChain` | controlplane/src/model_gateway_control/audit_main.py:81-99 | from every intact table, under every schedule of replicas, crashes and redeliveries, the table only grows, is intact, numbered 1 to n, the first occurrences of what it held and what was committed, and holds every acknowledged event |
| `AuditConsumers.BatchGoesThrough` | controlplane/src/model_gateway_control/audit_main.py:81-99 | a consumer that finds the lock free appends, commits and acknowledges its batch and frees the lock |
| `AuditConsumers.CrashFreesTheLock` | controlplane/src/model_gateway_control/service/audit.py:249-262 | a crash keeps what was committed and gives the lock back |
| `AuditConsumers.TwoAppendersFork` | controlplane/src/model_gateway_control/service/audit.py:249-262 | without the lock two appenders fork the chain, and verifying notices |
| `Accounting.Accountant.Record` | controlplane/src/model_gateway_control/service/accounting.py:73-124 | an event is inserted exactly when it carries an id not yet recorded |
| `Accounting.Accountant.Charge` | controlplane/src/model_gateway_control/service/accounting.py:126-146 | the loop charges every listing, counts those that name no budget, and notes the tenant if any was charged |
| `Accounting.Accountant.Apply` | controlplane/src/model_gateway_control/service/accounting.py:64-71 | the batch is recorded and charged and every touched tenant's version bumped once; recorded plus duplicates is the batch |
| `Accounting.ChargeAddsWhatIsOwed` | controlplane/src/model_gateway_control/service/accounting.py:126-146 | an event adds its price once per listing to its own tenant's budgets and nothing to others |
| `Accounting.EventsKeepBalance` | controlplane/src/model_gateway_control/service/accounting.py:64-146 | whatever a batch repeats, each budget stays at its opening spend plus what the distinct recorded requests owe it |
| `Accounting.VersionMovesWithSpend` | controlplane/src/model_gateway_control/service/accounting.py:126-164 | a batch keeps every tenant and moves a version, by one, exactly if it raised a spend of that tenant |
| `Accounting.UnknownAreCounted` | controlplane/src/model_gateway_control/service/accounting.py:126-146 | the listings counted as unknown are those that name no budget of the event's tenant |
| `AccountingConsumers.SpendIsExact` | controlplane/src/model_gateway_control/accounting_main.py:67-91 | under every schedule of batches, replicas, crashes, redeliveries and new budgets each budget's spend is exact from its own opening, and every acknowledged event with an id is recorded |
| `AccountingConsumers.BatchGoesThrough` | controlplane/src/model_gateway_control/accounting_main.py:67-91 | a replica left alone commits and acknowledges its batch; crashed before that, the batch was applied whole or not at all and can be delivered again |
| `AccountingConsumers.BudgetsComeAndGo` | controlplane/src/model_gateway_control/service/provisioning.py:241-274 | a new budget can appear for any tenant at any time, with nothing spent |
| `AccountingConsumers.SchedulesAgree` | controlplane/src/model_gateway_control/accounting_main.py:67-91 | schedules that recorded the same requests, in whatever order, charged the same |
| `SpendView.CommitRaisesBoth` | controlplane/src/model_gateway_control/service/accounting.py:126-164 | a commit that changes a spend raises it together with the tenant's version |
| `SpendView.EarlierIsNoNewer` | controlplane/src/model_gateway_control/service/accounting.py:126-164 | through any charges, new budgets and version bumps, a later state of a budget shows no lower version, no lower spend, and the same spend at the same version |
| `SpendView.AcceptedSwapKeepsSpend` | dataplane/internal/snapshot/holder.go:202-229 | an accepted swap between snapshots of any two states of one history never lowers a spend |
| `SpendView.SpendSeenNeverDecreases` | dataplane/internal/snapshot/holder.go:202-229 | in every run of the holder without a rollback spend never goes down while the tenant stays present, if no other commit lowers a version; tenants and budgets may appear at any time |
| `SpendView.WriteBackLowersExactly` | controlplane/src/model_gateway_control/service/provisioning.py:278-291 | a change that reads a version and writes it back lowers it exactly when two or more bumps were committed since |
| `SpendView.LoweredVersionServesLessSpend` | controlplane/src/model_gateway_control/service/keys.py:203-211 | after a change and a charge, a worker accepts the older state, with less spend, exactly when the change lowered the version |
| `SpendView.SwapsKeepSpendExactly` | dataplane/internal/snapshot/holder.go:202-229 | over any ledger, whatever versions its changes write, every accepted swap keeps the spend if and only if a higher spend always came with a higher version |
| `SpendView.LostUpdateReusesAVersion` | controlplane/src/model_gateway_control/service/keys.py:203-211 | two charges between a change's read and its write-back: the write-back carries the version of the state after the first charge at the spend of the second, and that stale state is served |
| `SpendView.LostUpdateForTwoRequests` | controlplane/src/model_gateway_control/service/keys.py:203-211 | one such history, in which the spend seen falls from 2 to 1 |
| `SpendView.FallsOnlyThroughAbsence` | dataplane/internal/snapshot/holder.go:291-308 | without a rollback a version that fell was absent from some snapshot in between |
| `SpendView.ReturningTenantMayRegress` | dataplane/internal/snapshot/holder.go:291-308 | for every history, a tenant missing from one snapshot may be served an older state after it, at a strictly lower version and spend |
| `SpendView.RollbackMayRegress` | dataplane/internal/snapshot/holder.go:237-250 | for every two accepted snapshots, a run serves the second and then the first, at a strictly lower version of every tenant that had moved |
| `Telemetry.StepKeepsInv` | dataplane/internal/telemetry/emitter.go:156-267 | every step of every emitter and of the worker conserves events, keeps the buffer bounded and in order, and fans out evenly |
| `Telemetry.CountersAddUp` | dataplane/internal/telemetry/emitter.go:156-248 | in every reachable state received equals dropped plus buffered plus consumed plus in hand; the buffer is bounded and first in, first out |
| `Telemetry.RoomKeepsAll` | dataplane/internal/telemetry/emitter.go:156-184 | alone and with room, an emitter queues its event and loses nothing |
| `Telemetry.FullDropsTheOldest` | dataplane/internal/telemetry/emitter.go:156-184 | alone on a full buffer, an emitter drops the oldest event, counts it, and queues the new one |
| `Telemetry.RunKeepsBatches` | dataplane/internal/telemetry/emitter.go:208-251 | no run writes an empty batch or one over the batch size |
| `Telemetry.TicksAndFailures` | dataplane/internal/telemetry/emitter.go:208-267 | a tick writes whatever has gathered; a failing sink costs the whole batch and does not stop the next |
| `Telemetry.CloseLosesNothing` | dataplane/internal/telemetry/emitter.go:200-267 | once closed with nobody emitting, every event ever received was counted as dropped or offered exactly once to every sink, in order |
| `Telemetry.DrainIsBounded` | dataplane/internal/telemetry/emitter.go:231-246 | however the worker runs once it drains, it takes at most a stated number of steps |
| `Telemetry.CloseReturns` | dataplane/internal/telemetry/emitter.go:200-246 | from every stopped state the worker can run to its exit |
| `Execution.WalkIsDisciplined` | dataplane/internal/router/router.go:476-513 | corollary: at most `maxAttempts` positions are used, skipped ones included, and none is called after an answer or a final error |
| `Policy.RefusedByTheFirstMatch` | dataplane/internal/policy/policy.go:115-134 | the topmost matching rule alone decides; it refuses exactly if it denies, and otherwise stamps its own floor, class and inspection |
| `Pipeline.InsideSeesThePayload` | dataplane/internal/gateway/pipeline.go:985-998 | corollary: a destination inside the trust boundary, and any for unclassified data, sees the payload as it is |

## Left out

- Tokenise.RoundTripExactly: necessity is not stated for values that begin with an opening bracket or kinds that hold a closing one, because there it fails (`BracketedValueMayComeBack`, `UnnamedKindMayComeBack`); sufficiency (`RoundTrip`) has no such limit. Empty values do not occur: expressions match, and the sidecar adapter passes on, non-empty spans only.
- MergeOrder.MergesAlikeExactly: stated for non-empty spans, for the same reason.
- Restorer.MissesCountedExactlyWhenTheyFit: stated for a restorer that has replacements; without any it passes chunks through and counts nothing.
- SpendView.SpendSeenNeverDecreases: other commits are taken to keep existing budgets and their spend. Nothing in the control plane deletes or resets one, though charging tolerates a budget that is gone and `AccountingConsumers` lets one disappear.
- AuditChain.PayloadInjective: a timestamp is the integer the payload renders; the conversion from a floating-point clock is not part of this model.
- AuditChain.HeadDeterminesTable: SHA-256 is a parameter, assumed free of collisions and never equal to the genesis value.
- LimiterFleet.AdmissionIsBounded: the limit is fixed per key and window, and the store's counter outlives its window.
- Telemetry.CloseLosesNothing: a batch is a value, so a sink that keeps the reused slice after returning is not captured.
- Pipeline.Session.Adapt: a call is computed per list position and its effects carried out in walk order, instead of a closure running inside the loop.
- Promotion.ShareOfTraffic: health, weight and draw are reals; floating-point rounding and the decay of health scores are not modelled.
- Redis, SQL, HTTP, streaming transport, tracing and process wiring: transactions and counter increments are atomic steps.
- Regular expressions and the statistical detector: their output is arbitrary in-bounds spans with the text they cover.
- The streaming request path's own bookkeeping and concurrency slots, and the shadow path: of the streaming path only restoring is modelled.
- Authentication, budgets, guardrails and the limiter inside one request: their answers are the gates of `Pipeline.Handle`.
- Eventual delivery after a restart: the stream that redelivers is not part of this model.
- Token limits and concurrency slots of the limiter: they reuse the counter in simpler ways.
- IPv4 validation, the vault's storage and expiry, snapshot building and wire conversion: easy members.
