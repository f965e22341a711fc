# PIA predictive accessibility and orchestration: a verified model

This project models the decision and state code of the PIA backend and proves what that code
is for. It covers five areas.

1. **Predictive evidence** (`Sums`, `Estimator`, `Sorting`, `Power`, `Placebo`, `Epistemic`,
   `Horizon`, `Authority`, `Claims`): the least-squares AR(1) fit against a Gaussian baseline,
   the circular block bootstrap with interpolated quantiles, the permutation placebo, the
   three-state classification, the horizon spectrum, the approval validator, and the evaluated
   claim they add up to.
2. **Governed reconfiguration** (`EventLog`, `Reconfiguration`, `Interleavings`): an append-only
   versioned log, the promotion and rollback gates, and any number of clients running both
   inside their own transactions.
3. **Quality and routing** (`Conflict`, `Protection`, `Burden`, `Quality`, `Routing`,
   `Coordinator`): conflict between claims, protective candidates, Pareto dominance of burdens,
   guidance, the final route, and the batches that tie them to the log.
4. **Exactly-once export** (`Export`): claim, effect, commit and replay, sequentially and under
   every interleaving of the two channels.
5. **Database rules** (`Canonical`, `Quota`, `ProtectionRows`, `ProtectionLedger`,
   `Delegations`, `Approvals`): canonical encodings, the quota, row checks in three truth
   values, deferred coherence, and single-use lifecycles.

Pure code is modelled by functions and lemmas; code that updates state by methods on classes
(`EventLog.Repository`, `Routing.LimitList`, `Export.Session`, `Quota.Repository`) or by loops,
each tied by its contract to a specification function, which lemmas then fix without naming it;
concurrency by state machines whose runs are arbitrary sequences of steps.

## Idealisations

- Floating-point numbers are exact reals; the logarithm is an uninterpreted function of the
  variance; a seeded generator is the sequence of draws it hands out, so every statement holds
  for every seed; the bootstrap block length is any length of at least two.
- The application orders text by code point. The array function of the database compares under
  the database's own collation, which is any relation on texts; the evidence function is taken to
  compare its keys by code point. A blank text is one of spaces, tabs and line breaks.
- Digests are injective, identifiers are numbers with equality, instants are integers.
- A database transaction commits or aborts as a whole; sequential scans and unique indexes are
  exact. In `Interleavings` rows stay private to their transaction until it commits and an
  insert waits while another open transaction holds one of its keys. In `Delegations` each
  session sees the latest committed rows under its own writes, and a statement waits for a session
  that has written a row or an index key it needs.

## Where the code and its documentation disagree, or a promise fails

- A claim whose lower bound is positive but whose confirmatory test fails is UNRESOLVED; the
  causal gate rejects an item when any channel is late, although its message says that none is
  available. The model follows the code.
- A gate called alone never answers "replayed": resubmitting a promotion loses the race against
  itself (`Reconfiguration.ResubmissionLoses`). A replay needs another client to have stored the
  very same event in between (`Interleavings.EveryAppendIsDecided`).
- A protective candidate without material effect is reported as rejected exactly when its
  identifier is not that of an accepted candidate withdrawn for incompatibility
  (`Protection.RejectedStaysIff`, with the smallest failing case in
  `Protection.NamesakeIsCarriedAway`).
- The partition check of the horizon spectrum fails exactly when the point that closes the
  continuous run was evaluated more than once (`Horizon.PartitionFailsIffRepeated`); any
  admissible point evaluated twice is a failing input (`Horizon.RepeatedPointFails`).
- An interval as long as the quota window is bounded by the limit exactly when it starts on a
  window (`Quota.IntervalBoundIff`); any other reaches twice the limit for some calls
  (`Quota.BoundIsTight`), and none more (`Quota.AnyIntervalBound`).
- What the application binds is accepted by the array function of the database exactly when it
  also ascends in the collation of the database, which the function does not fix
  (`Canonical.BindThenLoad`).
- Approval records are permanent under row statements, not under a TRUNCATE, which no trigger of
  their migration guards: it takes effect when it cascades or names both tables that refer to
  them, and a committed record is lost exactly when a transaction that ran such a TRUNCATE
  commits (`Approvals.LostIffCleared`, with the failing inputs in
  `Approvals.BothTruncationsClear`).
- Command receipts keep their meaning under every call, but no trigger protects their table
  against other statements (`Export.ReceiptsArePermanent`).

## Model

| member | source | states |
|---|---|---|
| `Estimator.BaselineFitsIff` | backend/app/predictive_accessibility/estimator.py:50-58 | the baseline is fitted exactly when there are two targets that differ |
| `Estimator.BaselineMinimisesDeviations` | backend/app/predictive_accessibility/estimator.py:50-58 | the baseline's mean is the one constant with the least squared deviations, and its variance is that minimum over n-1 |
| `Estimator.FittedLineIsOptimal` | backend/app/predictive_accessibility/estimator.py:61-75 | with a varying predictor, the fitted line's squared residual sum equals Syy - Sxy^2/Sxx and is at most that of every other line, strictly less unless it is the same line |
| `Estimator.Ar1MinimisesResiduals` | backend/app/predictive_accessibility/estimator.py:61-80 | a successful AR(1) fit minimises the squared residuals over all lines, and its residual variance is that minimum over n-2 |
| `Estimator.Ar1FitsIff` | backend/app/predictive_accessibility/estimator.py:61-80 | each of the three errors has its own exact cause; success exactly with three pairs, a varying predictor and no line through every pair |
| `Estimator.ResidualsVanishOnLine` | backend/app/predictive_accessibility/estimator.py:74-77 | the residual variance vanishes exactly when all pairs lie on the line |
| `Estimator.CandidateNestsBaseline` | backend/app/predictive_accessibility/estimator.py:50-80 | whenever the candidate fits, the baseline on the same targets fits too and (n-2) times the residual variance is at most (n-1) times the baseline variance |
| `Estimator.DensityFallsWithDistance` | backend/app/predictive_accessibility/estimator.py:41-47 | the candidate's log density is greater exactly where the target is closer to its prediction |
| `Estimator.DensityCurve` | backend/app/predictive_accessibility/estimator.py:25-47 | both log densities as curves: at the prediction minus half of ln(2 pi) + ln(variance), and from there down by half the squared distance over the variance |
| `Estimator.GainRewardsCloseness` | backend/app/predictive_accessibility/estimator.py:83-91 | at equal variances a blind event gains exactly when the candidate's prediction is closer than the baseline's mean |
| `Estimator.GainIsLikelihoodRatio` | backend/app/predictive_accessibility/estimator.py:83-91 | each gain is the log likelihood ratio of its own event: variances and scaled squared distances, the constant cancelled; an error exactly for an empty blind block |
| `Power.QuantileMonotone` | backend/app/predictive_accessibility/power.py:33-39 | the interpolated quantile of a sorted sample is monotone in its level and stays between the ends |
| `Power.QuantileAtKnots` | backend/app/predictive_accessibility/power.py:33-39 | at level k/(n-1) the quantile is exactly the k-th order statistic |
| `Power.QuantileInterpolates` | backend/app/predictive_accessibility/power.py:33-39 | between two knots the quantile runs straight from one order statistic to the next, so its value is fixed at every level |
| `Power.BlocksSuffice` | backend/app/predictive_accessibility/power.py:52-60 | for every sample size and block length the rounded-up number of blocks supplies at least n samples, with fewer than one block to spare |
| `Power.CircularBlockBootstrap` | backend/app/predictive_accessibility/power.py:46-64 | the resampling loops return the values at levels alpha and 1-alpha of one mean a draw put in order, each the mean of the circularly resampled gains, or the exact error |
| `Power.BootstrapTails` | backend/app/predictive_accessibility/power.py:46-64 | the same of the specification, with both errors exactly |
| `Power.DrawReplicate` | backend/app/predictive_accessibility/power.py:56-61 | one replicate is the mean of the first n samples of the concatenated circular blocks |
| `Power.BootstrapSandwich` | backend/app/predictive_accessibility/power.py:46-64 | for every draw, both quantiles lie within any bounds of the gains, and the lower is at most the upper when alpha is at most one half |
| `Placebo.DeterministicPlacebo` | backend/app/predictive_accessibility/power.py:67-98 | the permutation loop: p is one more than the number of shuffles, at any place, that do at least as well, over one more than the shuffles; the real gain is the mean difference; the threshold the value at level 0.95 of the shuffled gains in order |
| `Placebo.PlaceboCounts` | backend/app/predictive_accessibility/power.py:67-98 | the same of the specification, with both errors exactly |
| `Placebo.ShuffleOrderIsIrrelevant` | backend/app/predictive_accessibility/power.py:82-98 | rearranging the shuffles changes nothing of the ranking |
| `Placebo.PlaceboRange` | backend/app/predictive_accessibility/power.py:94-98 | p lies between 1/(permutations+1) and 1, and is 1 exactly when every shuffle does at least as well |
| `Placebo.NoSignalIsNeverConfirmed` | backend/app/predictive_accessibility/power.py:67-98 | when the predictor carries no information every shuffle reproduces the real gain: p is 1 and the real gain does not exceed the 95% quantile |
| `Epistemic.PowerOutcomeFor` | backend/app/predictive_accessibility/coordinator.py:103-141 | when evidence exists; that it is made of the two interpolated ends of the bootstrap, their positive part, the mean of the gains and the counted rank of the real predictors; and exactly when its state is PREDICTABLE or PREDICTIVELY_INACCESSIBLE |
| `Epistemic.EvidenceIff` | backend/app/predictive_accessibility/coordinator.py:103-141 | evidence is produced exactly for the registered library, at least two blind pairs, a varying training predictor and pairs not on one line |
| `Epistemic.EvidenceContents` | backend/app/predictive_accessibility/coordinator.py:112-141 | for every seed, lower and upper bound are the values at levels alpha and 1-alpha of the ordered replicate means, a_star_worst the larger of zero and the upper one, and p, gain and threshold those of the counted placebo |
| `Epistemic.EvidenceErrors` | backend/app/predictive_accessibility/coordinator.py:107-123 | which error is reported: library before baseline before candidate before resampling |
| `Epistemic.EvidenceIsBracketedByGains` | backend/app/predictive_accessibility/coordinator.py:112-141 | end to end, both bounds and the mean gain lie within the blind gains, and the mean gain reported is the one the placebo ranks |
| `Epistemic.StateIff` | backend/app/predictive_accessibility/epistemic.py:73-82 | each of the three states by its own condition on the evidence |
| `Epistemic.PredictableNeedsSignal` | backend/app/predictive_accessibility/epistemic.py:73-82 | PREDICTABLE implies a positive blind gain, a non-zero coefficient, a varying blind predictor and alpha above 1/(permutations+1), for every seed |
| `Epistemic.InaccessibleIsExcluded` | backend/app/predictive_accessibility/epistemic.py:73-82 | INACCESSIBLE holds exactly when the lower bound is not positive and the upper bound is below a positive required advantage |
| `Horizon.HorizonSpectrum` | backend/app/predictive_accessibility/horizon.py:49-66 | the loop with its early break cuts the ordered points after their longest run |
| `Horizon.SpectrumOfDistinctHorizons` | backend/app/predictive_accessibility/horizon.py:49-66 | with distinct horizons in any order: the check never fails, h_pred is the sorted admissible set, delta_cont the maximal gap-free run from the smallest evaluated horizon, r_pred exactly the rest |
| `Horizon.PartitionFailsIffRepeated` | backend/app/predictive_accessibility/horizon.py:44-46 | for points in any order and with any repetition: put in stable order, the partition check fails exactly when the point closing the longest leading run was evaluated more than once |
| `Horizon.SpectrumIsPartition` | backend/app/predictive_accessibility/horizon.py:49-66 | whenever it does not fail, h_pred is delta_cont followed by r_pred, delta_cont that run, and h_pred the admissible points, each as often as given, in stable order |
| `Horizon.RepeatedPointFails` | backend/app/predictive_accessibility/horizon.py:44-46 | the failing input: any admissible point evaluated twice |
| `Authority.ApprovalStepIff` | backend/app/predictive_accessibility/piap/authority.py:288-366 | the approval is valid exactly when authorised, of the expected kind and certifying version, jurisdiction, scope and expiry; validity extends to every earlier instant and does not depend on the bound reference |
| `Authority.FirstDefectWins` | backend/app/predictive_accessibility/piap/authority.py:347-366 | with several defects the first of the documented order is the one reported |
| `Authority.FirstStepDefectWins` | backend/app/predictive_accessibility/piap/authority.py:288-366 | the step reports the first defect of its own list, kind of binding before status; it errs exactly for a malformed expectation it reaches |
| `Authority.ExpectationIff` | backend/app/predictive_accessibility/piap/authority.py:288-345 | what makes the arguments of a validation well formed |
| `Claims.EvaluatedClaim` | backend/app/predictive_accessibility/coordinator.py:144-206 | an evaluated claim uses causally available channels only and carries the evidence of its own context, its bounds, its spectrum and its subject; regime and state mean what thresholds and evidence say; its approval is valid exactly for an authorised approval of the expected kind certifying the expectation, and otherwise the first defect |
| `Claims.EvaluationStages` | backend/app/predictive_accessibility/coordinator.py:144-206 | which outcome or error an item gets, the first failing stage before the later ones |
| `Claims.CausalRejectionIff` | backend/app/predictive_accessibility/coordinator.py:158-170 | an item is causally rejected exactly when some channel is observed with too little lag; the outcome names its subject and exactly the late channels in order |
| `EventLog.Repository.Get` | backend/app/predictive_accessibility/repositories/reconfiguration_repository.py:58-61 | an event is found exactly when one of that id is in the log, and in a safe log the one found is the only one |
| `EventLog.Repository.Current` | backend/app/predictive_accessibility/repositories/reconfiguration_repository.py:63-70 | the event of the subject with the greatest version, by a scan |
| `EventLog.Repository.Append` | backend/app/predictive_accessibility/repositories/reconfiguration_repository.py:72-125 | replay, mismatch, constraint violation, lost race or commit, and the resulting log |
| `EventLog.AcceptedColumns` | backend/alembic/versions/f8a91c2d4e60_create_predictive_reconfiguration_events_e5.py:31-66 | the text columns of an accepted row are exactly what the canonical-array function accepts by code point; under any other collation it accepts exactly those of them that ascend there too |
| `EventLog.CurrentIsCount` | backend/app/predictive_accessibility/reconfiguration.py:286-474 | in a safe log the current version of a subject is its number of events |
| `EventLog.VersionsAreOneToN` | backend/app/predictive_accessibility/reconfiguration.py:286-474 | in a safe log the versions of a subject are exactly 1..n |
| `EventLog.ApprovalSpentOnce` | backend/app/predictive_accessibility/reconfiguration.py:286-474 | two events of a subject under one approval version are the same event |
| `EventLog.AncestryOf` | backend/app/predictive_accessibility/reconfiguration.py:391-474 | following rollbacks strictly decreases the version, stays in the subject and payload, and ends at a promotion |
| `EventLog.AppendIsSafe` | backend/app/predictive_accessibility/repositories/reconfiguration_repository.py:72-105 | appending a proposed event keeps the log safe, violates nothing, and commits exactly when the id is new and the version still next |
| `EventLog.AppendIff` | backend/app/predictive_accessibility/repositories/reconfiguration_repository.py:72-125 | on any log, each answer of an append by its exact condition: id before row before version before the event a rollback names |
| `EventLog.LostNamesCurrent` | backend/app/predictive_accessibility/repositories/reconfiguration_repository.py:97-101 | a lost race answers with the event now current |
| `EventLog.AppendTwice` | backend/app/predictive_accessibility/repositories/reconfiguration_repository.py:77-82 | a stored event appended again is a replay; any other event under its id is refused; neither changes the log |
| `Reconfiguration.PromoteGate` | backend/app/predictive_accessibility/reconfiguration.py:286-375 | outcome and new log of the promotion gate over the repository |
| `Reconfiguration.RollbackGate` | backend/app/predictive_accessibility/reconfiguration.py:391-474 | outcome and new log of the rollback gate over the repository |
| `Reconfiguration.Submit` | backend/app/predictive_accessibility/reconfiguration.py:328-375 | reading the current version, then appending |
| `Reconfiguration.PromotionGate` | backend/app/predictive_accessibility/reconfiguration.py:286-375 | promotes exactly the predictable, approved candidate of a shifting regime at the current version under a new id; otherwise the log is untouched; never a replay, never a constraint violation |
| `Reconfiguration.PromotionIsRecorded` | backend/app/predictive_accessibility/reconfiguration.py:338-375 | a committed promotion appends one event, then current, with every reference of the candidate under its own name, the whole approval that backs it and the given id and instant; the answer names it and its version |
| `Reconfiguration.PromotionRefusals` | backend/app/predictive_accessibility/reconfiguration.py:296-337 | which refusal or error each call gets: regime before evidence before approval before the log |
| `Reconfiguration.RefusalsReport` | backend/app/predictive_accessibility/reconfiguration.py:296-337 | a refusal names no event and no version; a lost race names the current event and a version equal to the number of events |
| `Reconfiguration.RollbackGateIff` | backend/app/predictive_accessibility/reconfiguration.py:391-474 | commits exactly for an earlier event of the subject with an approval certifying its candidate at the next version, current and under a new id |
| `Reconfiguration.RollbackRefusals` | backend/app/predictive_accessibility/reconfiguration.py:391-445 | which refusal or error each rollback gets, and what it reports |
| `Reconfiguration.RollbackReactivates` | backend/app/predictive_accessibility/reconfiguration.py:446-474 | a committed rollback appends one event, then current one version later, with the payload of its target, the whole approval and the given instant; the target is untouched |
| `Reconfiguration.ResubmissionLoses` | backend/app/predictive_accessibility/reconfiguration.py:328-337 | the same promotion submitted again loses the race and is told the id now current |
| `Interleavings.EveryRunIsSafe` | backend/app/predictive_accessibility/reconfiguration.py:286-474 | over every interleaving: versions exactly 1..n, current n, each event with the approval of its version and candidate, no approval version spent twice |
| `Interleavings.EveryEventIsARow` | backend/alembic/versions/f8a91c2d4e60_create_predictive_reconfiguration_events_e5.py:117-169 | over every interleaving each committed event satisfies every check of its table |
| `Interleavings.HistoryIsImmutable` | backend/alembic/versions/f8a91c2d4e60_create_predictive_reconfiguration_events_e5.py:172-206 | the committed log only grows; nothing committed changes or leaves |
| `Interleavings.EveryRollbackDescends` | backend/app/predictive_accessibility/reconfiguration.py:391-474 | in every reachable log each event descends from a promotion of its own payload |
| `Interleavings.EveryAppendIsDecided` | backend/app/predictive_accessibility/repositories/reconfiguration_repository.py:72-105 | whatever happened since the read, the append is committed, replayed, lost or refused exactly when its id and version say so, never violates a constraint, and a lost one names the event now current |
| `Interleavings.AppendWaitsIff` | backend/alembic/versions/f8a91c2d4e60_create_predictive_reconfiguration_events_e5.py:110-121 | an append of a new id stands still exactly while another open transaction holds its id, or its version of its subject |
| `Interleavings.PromotionAlone` | backend/app/predictive_accessibility/reconfiguration.py:286-375 | alone, the separate steps of a promotion leave the log exactly as the gate does |
| `Interleavings.RollbackAlone` | backend/app/predictive_accessibility/reconfiguration.py:391-474 | alone, the separate steps of a rollback leave the log exactly as the gate does |
| `Conflict.SameKeyIff` | backend/app/predictive_accessibility/predictive_claim_conflict.py:100-107 | no dimension differs exactly when the keys are equal, and each dimension is that of its own component |
| `Conflict.StarIsAllPairs` | backend/app/predictive_accessibility/predictive_claim_conflict.py:124-127 | comparing with the first claim only finds the divergent dimensions of all pairs |
| `Conflict.AssessConflict` | backend/app/predictive_accessibility/predictive_claim_conflict.py:110-157 | status and dimensions are those of the all-pairs reference over the set of claims |
| `Conflict.OrderIsIrrelevant` | backend/app/predictive_accessibility/predictive_claim_conflict.py:110-157 | reordering or repeating claims changes neither status nor dimensions |
| `Conflict.StatusIff` | backend/app/predictive_accessibility/predictive_claim_conflict.py:128-148 | false conflict exactly with two different keys; real conflict exactly with one key and two conclusions |
| `Conflict.GroupByKey` | backend/app/predictive_accessibility/coordinator.py:383-399 | the groups hold, in order, exactly the positions that share each key |
| `Conflict.AssessBatch` | backend/app/predictive_accessibility/coordinator.py:374-422 | each governed, evaluated item is assessed against exactly the items of its key, every other item not at all; the decomposed dimensions are those of all pairs in the batch |
| `Conflict.DecomposeKeys` | backend/app/predictive_accessibility/coordinator.py:412-418 | comparing each unordered pair of keys once finds every differing dimension |
| `Conflict.GroupedItem` | backend/app/predictive_accessibility/coordinator.py:374-422 | no item is ever a false conflict; an item is in real conflict exactly when another shares its key and differs in conclusion |
| `Protection.SustainedAuthority` | backend/app/predictive_accessibility/protection.py:133-174 | the chain finds no failure exactly for an authority in force under a valid kept approval; the approval is then unexpired and covers the required scope |
| `Protection.FirstFailureWins` | backend/app/predictive_accessibility/protection.py:133-174 | which failure of a material authority is reported: the first of the chain that is present |
| `Protection.AssertivenessMeans` | backend/app/predictive_accessibility/assertiveness.py:53-85 | the next route is to investigate exactly on a real conflict or an unresolved state and otherwise that of the state; authorised exactly by a valid approval |
| `Protection.CountsAddUp` | backend/app/predictive_accessibility/protection.py:283-296 | accepted, rejected and unresolved hold exactly the records of their materiality, in order, and add up to the candidates |
| `Protection.AcceptedAreCompatible` | backend/app/predictive_accessibility/protection.py:266-287 | no two accepted candidates are incompatible in either direction, even with repeated identifiers |
| `Protection.AcceptedIff` | backend/app/predictive_accessibility/protection.py:177-296 | a candidate is accepted exactly when acceptable on its own and clashing with nothing acceptable |
| `Protection.FinalMeans` | backend/app/predictive_accessibility/protection.py:177-283 | where each candidate ends up: unresolved under a clashing identifier, elsewhere supported exactly when acceptable and rejected exactly without effect |
| `Protection.MotiveIff` | backend/app/predictive_accessibility/protection.py:177-229 | which motive a candidate gets on its own: the first obstacle in order |
| `Protection.CoverageIff` | backend/app/predictive_accessibility/protection.py:256-264 | when coverage is complete, and which of the three reasons is given when not, with exactly the fronts that have no candidate |
| `Protection.CompleteIff` | backend/app/predictive_accessibility/protection.py:122-130 | the answer is complete exactly when every candidate with effect is acceptable, nothing clashes and coverage is complete |
| `Protection.NothingAcceptedWithout` | backend/app/predictive_accessibility/protection.py:177-296 | a real conflict, an approval that is not valid or a missing binding accepts nothing |
| `Protection.ConstructorNeverFails` | backend/app/predictive_accessibility/protection.py:99-109 | every record built, before and after reclassification, satisfies the constructor |
| `Protection.RejectedStaysIff` | backend/app/predictive_accessibility/protection.py:274-289 | a candidate without effect stays rejected exactly when its identifier is not in a clash |
| `Protection.DistinctAreKept` | backend/app/predictive_accessibility/protection.py:274-283 | with distinct identifiers every record keeps its own data and rejection is undisturbed |
| `Protection.NamesakeIsCarriedAway` | backend/app/predictive_accessibility/protection.py:274-283 | three candidates for which a rejected namesake becomes unresolved |
| `Protection.ClashCarriesLast` | backend/app/predictive_accessibility/protection.py:274-283 | a clashing identifier carries the record of its last acceptable candidate |
| `Burden.ComparableIff` | backend/app/predictive_accessibility/burden.py:78-87 | no failure exactly when unit, source, version and time agree in all six dimensions; a named failure is real and the first in order |
| `Burden.ComparableByName` | backend/app/predictive_accessibility/burden.py:78-87 | comparability and vulnerability by the six dimensions by name |
| `Burden.Trichotomy` | backend/app/predictive_accessibility/burden.py:89-108 | comparable vectors are equal, dominated one way, or crossed, exclusively |
| `Burden.DominatesByName` | backend/app/predictive_accessibility/burden.py:89-95 | dominance by the six dimensions by name |
| `Burden.DominanceIsStrictOrder` | backend/app/predictive_accessibility/burden.py:89-95 | dominance is irreflexive and transitive |
| `Burden.UnbeatenIsLeast` | backend/app/predictive_accessibility/burden.py:89-95 | in any finite collection some vector is unbeaten, and a sole unbeaten one is dominated by every other |
| `Burden.LastVectorCounts` | backend/app/predictive_accessibility/burden.py:156-165 | the vector compared for an alternative is the last one given with it |
| `Burden.Compare` | backend/app/predictive_accessibility/burden.py:156-188 | the nested loops list, each once, exactly the dominated alternatives, the trade-offs, and the incomparable pairs with their own failure, each vector under the alternative it was given with; the two errors occur exactly for a missing and a repeated vector |
| `Burden.SomeAlternativeStands` | backend/app/predictive_accessibility/burden.py:151-153 | the three alternatives are never all dominated |
| `Burden.SoleAlternativeIsLeast` | backend/app/predictive_accessibility/burden.py:151-153 | a sole non-dominated alternative is at most as heavy as each other in all six dimensions and lighter in one |
| `Quality.GuidanceValidIff` | backend/app/predictive_accessibility/guidance.py:67-91 | each of the six outcomes has its exact condition: presence, form, jurisdiction, version, window |
| `Quality.CounterfactualIff` | backend/app/predictive_accessibility/counterfactual.py:67-104 | a set is built exactly with all three kinds and one key or a justification; endorsement, disposition and completeness are those of guidance and protection |
| `Routing.ChooseAlternative` | backend/app/predictive_accessibility/routing.py:100-147 | the recommended alternative, and the one limit appended to the shared list |
| `Routing.RecommendedIsLeast` | backend/app/predictive_accessibility/routing.py:100-147 | an alternative is recommended exactly when complete, endorsed, comparable and alone non-dominated, and is then the least; two branches never occur |
| `Routing.ChoiceExplains` | backend/app/predictive_accessibility/routing.py:100-147 | the limit that comes with the choice: the first obstacle in order, what is kept, or none for full action |
| `Routing.StateContext` | backend/app/predictive_accessibility/routing.py:160-185 | the context limits, in order, appended to the shared list |
| `Routing.ContextIff` | backend/app/predictive_accessibility/routing.py:160-185 | each context limit is stated exactly when it applies, once and in order, and nothing else is |
| `Routing.Deliver` | backend/app/predictive_accessibility/routing.py:189-207 | the revalidated route is the more conservative one; a limit is added only to an unexplained abstention |
| `Routing.MoreConservativeIff` | backend/app/predictive_accessibility/routing.py:189-207 | which route is revalidated: investigate over robust over reconfigure over predict |
| `Routing.FinalRouting` | backend/app/predictive_accessibility/routing.py:150-227 | route, recommendation and limits; abstention is always explained and revalidation never less conservative |
| `Routing.AbstentionIsExplained` | backend/app/predictive_accessibility/routing.py:195-196 | an abstention has a context limit, so the fallback limit is never needed |
| `Routing.RouteIff` | backend/app/predictive_accessibility/routing.py:209-227 | the exact condition of no route and of each of the four routes: reconfiguration needs promotion, approval and complete protection and takes precedence, each other route belongs to its own state |
| `Coordinator.ReconfigureBatch` | backend/app/predictive_accessibility/coordinator.py:219-280 | the sidecar loop over the repository, stopping at the first gate that fails |
| `Coordinator.BatchIsSafe` | backend/app/predictive_accessibility/coordinator.py:219-280 | the batch keeps the log safe, never rewrites it, and grows it by exactly the events of the promoted positions, each earned |
| `Coordinator.EachSidecar` | backend/app/predictive_accessibility/coordinator.py:219-280 | what the sidecar of each position says, the gate answering on the log the earlier positions left |
| `Coordinator.NotEvaluatedIsInert` | backend/app/predictive_accessibility/coordinator.py:232-247 | unavailable and causally rejected items neither read nor write the log |
| `Coordinator.RouteItem` | backend/app/predictive_accessibility/coordinator.py:291-371 | each outcome variant, each error exactly, and the chain of stages behind a final route |
| `Coordinator.RouteBatch` | backend/app/predictive_accessibility/coordinator.py:425-465 | from the batch alone: an item is assessed exactly when evaluated and governed, is in real conflict exactly when another claim has its key and another conclusion, and then gets no route; the decomposed dimensions are those of all pairs of governed keys; one outcome per item, or the error of the first item that fails |
| `Coordinator.RoutedMeans` | backend/app/predictive_accessibility/coordinator.py:291-371 | which route a position gets, exactly, what goes back for revalidation and the limits it states |
| `Coordinator.ReconfigureIsEarned` | backend/app/predictive_accessibility/coordinator.py:219-465 | RECONFIGURE implies the item's event is in a safe log, a predictable claim in a shifting regime, a valid bound approval, complete protection and no real conflict |
| `Coordinator.ReconfigureIff` | backend/app/predictive_accessibility/coordinator.py:219-465 | RECONFIGURE exactly when the candidate is earned, its version still next and its id new on its turn, no real conflict stands and the protection is complete |
| `Coordinator.ProtectionMeans` | backend/app/predictive_accessibility/coordinator.py:324-340 | the protection of a position is complete exactly when something is assessed, every required front has a candidate, and each candidate with effect rests on an authority in force within the item's own valid approval, none clashing |
| `Coordinator.EarnedHasSignal` | backend/app/predictive_accessibility/coordinator.py:144-280 | a promoted position rests on a regime past both tests and on signal in the blind block |
| `Coordinator.BatchRecommendation` | backend/app/predictive_accessibility/coordinator.py:425-465 | what is recommended in a batch is the least burdensome alternative under valid guidance and complete protection; abstention is explained; no incommensurable limit appears |
| `Export.Session.ClaimCommand` | backend/app/orchestration/repositories/orchestration_repository.py:468-542 | inserts the receipt or returns the one already there, unchanged |
| `Export.Session.ExportStep` | backend/app/mcp/supervised_export_service.py:131-199 | the third gate, then one open attempt under the index, or an error and no change |
| `Export.Session.ExportOnce` | backend/app/orchestration/services/command_receipt_service.py:282-400 | effect only for the caller that inserted the receipt; an error inside the claim restores both tables |
| `Export.Session.ExportSupervised` | backend/app/mcp/adapters.py:89-137 | the first gate before the claim, then the claim; result and tables of the whole call |
| `Export.Session.FindReplay` | backend/app/routers/orchestration.py:952-981 | a replay or a conflict already decides the whole manual call, whatever preflight, gate and new identifier would be; none is answered exactly when nothing is recorded under the scope, and then the preflight alone can block the call |
| `Export.Session.ExportManual` | backend/app/routers/orchestration.py:283-385 | replay before preflight, preflight before claim; result and tables of the whole call |
| `Export.EffectCommitsOnce` | backend/app/mcp/adapters.py:14-34 | over every interleaving an origin has at most one attempt, and receipts and attempts are committed together |
| `Export.EffectsAreReported` | backend/app/mcp/adapters.py:14-34 | every committed attempt belongs to the one call that reported producing it; blocked, failed, conflicting and replayed calls leave none |
| `Export.SuccessesAgree` | backend/app/routers/orchestration.py:283-385 | successes under one principal and key report one attempt of one request; a conflict is a different request |
| `Export.OneOpenAttempt` | backend/alembic/versions/c3a75e01d248_create_handoff_results_e7_2.py:207-215 | no step ever has two open attempts |
| `Export.LocksAreExclusive` | backend/app/routers/orchestration.py:306-348 | over every interleaving two calls never hold the lock of one schedule, and a manual call never claims its key for a new effect without it |
| `Export.ReceiptsArePermanent` | backend/app/orchestration/repositories/orchestration_repository.py:505-530 | over every interleaving no call changes or removes a committed receipt: what the claim's upsert keeps, as the table itself has no trigger against other statements |
| `Export.BlockLeavesKeyFree` | backend/app/mcp/supervised_export_service.py:47-56 | a block by the third gate leaves no claim, no attempt and a free key |
| `Export.FreeKeySucceeds` | backend/app/mcp/supervised_export_service.py:47-56 | on a free key and step an allowed call succeeds with a new attempt whatever else is in progress |
| `Export.RaceLoserReplays` | backend/app/routers/orchestration.py:306-348 | the second read under the lock turns the loser of a race into a replay of the winner's attempt, whatever the preflight would have said |
| `Export.OtherRequestConflicts` | backend/app/routers/orchestration.py:306-348 | a key committed for another request ends the call in a conflict that changes nothing, at the first read, at the second one under the lock, or at the claim |
| `Export.AloneIsSequential` | backend/app/mcp/adapters.py:89-137 | alone, the moves of a supervised call equal the sequential call |
| `Export.ManualAloneIsSequential` | backend/app/routers/orchestration.py:283-385 | alone, the moves of a manual call equal the sequential call |
| `Quota.Repository.ConsumeQuota` | backend/app/repositories/programmatic_access_repository.py:117-166 | the conditional upsert: when it errs, when it grants, and the resulting buckets |
| `Quota.UsageCountsGrants` | backend/app/repositories/programmatic_access_repository.py:168-185 | the usage read for the current window is the number of grants made in it, and the next call is granted exactly while it is below the limit |
| `Quota.RequireAccess` | backend/app/api/dependencies.py:145-227 | scope before quota, and which refusal is reported |
| `Quota.GrantsEqualUsed` | backend/app/repositories/programmatic_access_repository.py:133-166 | in an aligned window the grants equal what the bucket has used and never exceed the limit |
| `Quota.AnyIntervalBound` | backend/app/repositories/programmatic_access_repository.py:133-166 | any interval of window length contains at most twice the limit |
| `Quota.BoundIsTight` | backend/app/repositories/programmatic_access_repository.py:133-166 | for every positive quota and every interval of window length that does not start on a window some calls reach twice the limit in it |
| `Quota.IntervalBoundIff` | backend/app/repositories/programmatic_access_repository.py:133-166 | an interval of window length holds at most the limit, whatever the calls, exactly when it starts on a window |
| `Quota.OneCall` | backend/app/api/dependencies.py:145-227 | each of the four answers has its exact cause; only a grant spends, one unit of its own bucket |
| `Quota.BucketsAreIsolated` | backend/app/api/dependencies.py:186-227 | a bucket depends only on the calls of its own principal and operation |
| `Canonical.StringArrayIsCanonical` | backend/alembic/versions/f8a91c2d4e60_create_predictive_reconfiguration_events_e5.py:31-66 | under any collation the loop accepts exactly arrays of non-blank texts, each strictly after the one before |
| `Canonical.IncreasingIffSortedSet` | backend/app/predictive_accessibility/reconfiguration.py:113-124 | strictly increasing is exactly equality with the sorted, deduplicated self |
| `Canonical.EncodingIffSameSet` | backend/app/models/programmatic_service_principal.py:95-116 | encodings are equal exactly when the sets are |
| `Canonical.BindThenLoad` | backend/app/predictive_accessibility/reconfiguration.py:107-124 | what is bound is loaded back unchanged, and the database accepts it exactly when it ascends in its collation too; by code point it always does |
| `Canonical.TupleErrors` | backend/app/predictive_accessibility/reconfiguration.py:107-124 | which tuples are bound and which arrays are loaded, and why the others are not |
| `Canonical.ScopesRoundTrip` | backend/app/models/programmatic_service_principal.py:95-134 | writing then reading scopes is lossless, and equal scope sets have equal encodings |
| `Canonical.ScopesWrittenIff` | backend/app/models/programmatic_service_principal.py:95-116 | scopes may be written exactly when there are some and all are of the closed vocabulary |
| `Canonical.ReadScopesAreCanonical` | backend/app/models/programmatic_service_principal.py:119-134 | whatever value is persisted, reading yields strictly increasing scopes, exactly the texts that iterating the value yields |
| `Canonical.KeyOrderIsPairOrder` | backend/alembic/versions/e7c25a91f4b3_create_validated_experiences_e4_11.py:134-141 | comparing the joined keys is comparing kind, then reference |
| `Canonical.UuidIff` | backend/alembic/versions/e7c25a91f4b3_create_validated_experiences_e4_11.py:59-60 | the identifier pattern as a whole: 36 characters, dashes in four places, lower-case hexadecimal elsewhere |
| `Canonical.ReferenceIff` | backend/alembic/versions/e7c25a91f4b3_create_validated_experiences_e4_11.py:105-134 | an item is accepted exactly as the stored form of a reference, its kind and its identifier and no other key, and reads back as that reference |
| `Canonical.Sha256Iff` | backend/alembic/versions/f8a91c2d4e60_create_predictive_reconfiguration_events_e5.py:135-138 | a digest is 64 lower-case hexadecimal characters |
| `Canonical.EvidenceIsCanonical` | backend/alembic/versions/e7c25a91f4b3_create_validated_experiences_e4_11.py:98-150 | the loop accepts exactly non-empty lists of well-formed references in strict order that hold the primary one |
| `Canonical.ReadAllIff` | backend/alembic/versions/e7c25a91f4b3_create_validated_experiences_e4_11.py:106-132 | every item is read exactly when each is a well-formed reference |
| `Canonical.EvidenceIsDuplicateFree` | backend/alembic/versions/e7c25a91f4b3_create_validated_experiences_e4_11.py:135-141 | accepted evidence never repeats a reference |
| `ProtectionRows.AcceptedIff` | backend/alembic/versions/f4c8b0d51e73_close_human_protection_temporal_and_sql_gaps.py:24-34 | with null as acceptance, the corrected checks accept exactly the rows whose attempt, pause, binding, schedule, step, revocations and engagement follow gate and outcome |
| `ProtectionRows.CorrectionIff` | backend/alembic/versions/f4c8b0d51e73_close_human_protection_temporal_and_sql_gaps.py:24-50 | the correction refuses exactly the blocked row without engagement and the allowed row with one |
| `ProtectionRows.NullWasAccepted` | backend/alembic/versions/d7a4c1e93b28_human_protection_bridge_e7_4_1_b1a.py:109-112 | a row the first checks accepted because a membership was unknown |
| `ProtectionLedger.CheckIsExact` | backend/alembic/versions/d7a4c1e93b28_human_protection_bridge_e7_4_1_b1a.py:290-303 | comparing count and maximum says exactly that the ordinals are 0..n-1 |
| `ProtectionLedger.SeenIsAll` | backend/alembic/versions/d7a4c1e93b28_human_protection_bridge_e7_4_1_b1a.py:288-303 | a view that accepts an addition already had every committed capability of the event |
| `ProtectionLedger.EveryStateIsCoherent` | backend/alembic/versions/d7a4c1e93b28_human_protection_bridge_e7_4_1_b1a.py:225-323 | in every committed state, whatever the views: blocked exactly with capabilities, ordinals 0..n-1, at most four, row checks satisfied |
| `ProtectionLedger.NothingIsLost` | backend/alembic/versions/d7a4c1e93b28_human_protection_bridge_e7_4_1_b1a.py:239-268 | no committed event or capability changes or disappears |
| `ProtectionLedger.RecordingCommitsIff` | backend/alembic/versions/d7a4c1e93b28_human_protection_bridge_e7_4_1_b1a.py:225-323 | an event and its numbered capabilities commit in one transaction exactly when the event is new, its row accepted, the capabilities different, and present exactly when blocked |
| `Delegations.SingleUse` | backend/alembic/versions/f2c60d8a41b9_create_delegation_control_audit_e7_3.py:525-585 | over any statements of any number of concurrent sessions a committed delegation is never lost, keeps its binding, changes state at most once and is then frozen |
| `Delegations.CommittedState` | backend/alembic/versions/f2c60d8a41b9_create_delegation_control_audit_e7_3.py:182-203 | after every commit of concurrent sessions: at most one active per schedule, step and scope; consumed exactly with an instant and an existing attempt of its own step and schedule |
| `Delegations.UpdateAcceptedIff` | backend/alembic/versions/f2c60d8a41b9_create_delegation_control_audit_e7_3.py:525-585 | an update is accepted exactly for an active row that keeps id and binding, goes to a terminal state and is stamped exactly when consumed |
| `Delegations.InsertAcceptedIff` | backend/alembic/versions/f2c60d8a41b9_create_delegation_control_audit_e7_3.py:149-205 | an insert is accepted exactly under a new id, with a digest of 64 characters, a grantor, both stamps exactly when consumed, and no other active one for its step |
| `Delegations.OtherStatements` | backend/alembic/versions/f2c60d8a41b9_create_delegation_control_audit_e7_3.py:525-585 | deletion and truncation are refused, missing rows are neither deleted nor updated |
| `Delegations.WaitsIff` | backend/alembic/versions/f2c60d8a41b9_create_delegation_control_audit_e7_3.py:182-205 | whom a statement waits for: a session that wrote the same row or holds the step in the index of active delegations |
| `Delegations.ConsumptionCommits` | backend/alembic/versions/f2c60d8a41b9_create_delegation_control_audit_e7_3.py:182-203 | any session may consume an active delegation under a new attempt of its own step, whatever else is open elsewhere |
| `Approvals.SingleUse` | backend/alembic/versions/a1f7c2d40e93_create_approval_records_e4_9_9_a.py:382-480 | unless a transaction that ran a clearing truncation commits, no committed record is lost, its binding never changes and it leaves the active state at most once |
| `Approvals.LostIffCleared` | backend/alembic/versions/a1f7c2d40e93_create_approval_records_e4_9_9_a.py:471-480 | a committed record that is not inserted again is lost exactly when a transaction that ran a clearing truncation, one that cascades or names both referring tables, commits |
| `Approvals.BothTruncationsClear` | backend/alembic/versions/a1f7c2d40e93_create_approval_records_e4_9_9_a.py:466-513 | the failing inputs: each of the two clearing truncations empties any table at the next commit, and one that names fewer tables is refused |
| `Approvals.UpdateAcceptedIff` | backend/alembic/versions/a1f7c2d40e93_create_approval_records_e4_9_9_a.py:382-480 | an update is accepted exactly for an active record that keeps id and binding and is stamped as consumed or as revoked |
| `Approvals.InsertAcceptedIff` | backend/alembic/versions/a1f7c2d40e93_create_approval_records_e4_9_9_a.py:178-205 | an insert is accepted exactly under a new id and unused nonce, with its instants in order and the stamps of its state |
| `Approvals.LifeCompletes` | backend/alembic/versions/a1f7c2d40e93_create_approval_records_e4_9_9_a.py:382-480 | inserted, committed, consumed or revoked once and committed again: the whole life goes through |

## Left out

- Argument type checks, the length limits of text columns, and Unicode categories of opaque references.
- The textual reasons and messages of results; limits and motives are values of closed vocabularies.
- The exact cube root behind the block length: any length of at least two is allowed.
- Claim extraction from the envelope and the subject digest: a claim is its subject key.
- The two ceilings of an evaluation request, and the partition of observations by relevance, whose only failures are modelled.
- The constructor of a burden vector: a vector has its six dimensions by construction; the numeric expected loss is not modelled.
- Foreign keys, the idempotency key and the digest columns of protection events beyond their format.
- The service layer behind a manual export: predecessors, delegations and the pause it records are one verdict of the preflight, and attempt numbers and seal receipts are not recorded.
- Protection decision events of blocked gates, which the surrounding transaction rolls back.
- Import of returns, control events, audit opinions, observations and the gate marker function.
- Approvals: transactions run one after the other; those of delegations interleave.
- Creation, authentication and revocation of principals; HTTP and MCP transport.
- Delegations and approvals: the step, schedule and child tables themselves; only the keys that point to and from them.
