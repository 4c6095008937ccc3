# ASSCOR: a verified model of scoring, risk propagation, secure mode and federation

ASSCOR assesses hosts. Its agents run checks, encrypt their own configuration and report by heartbeat. The SSAM
library turns check results into a score; the Prism engine turns scores, dependencies and unrepaired failures
into a dynamic score and a forecast. A federation extension merges the topology facts of several nodes.

This project models the decision-making core of those four parts and proves what they promise.

- **Scoring** (`Rounding`, `RealLemmas`, `Ordering`, `SsamTypes`, `Aggregation`, `FormulaAst`, `Formulas`, `Confidence`,
  `EdgeFactors`, `Posterior`, `Scoring`, `Acceptance`). A formula language with an evaluator, a compiler to postfix
  code and a stack machine; confidence-weighted domain scores; edge factors that trigger and cascade; two hand-written
  formulas and the trees that claim to restate them; the whole assessment. Main results: compiler correctness from any stack, the exact
  conditions under which trees and formulas agree, end-to-end monotonicity of the published score, and the policies
  under which acceptance follows it.
- **Risk** (`PrismCore`, `Paths`, `Inference`, `Semantic`). Three ways to aggregate upstream risk, debt and collapse, a
  backtracking path search with ranking, Markov and Bayes forecasts, fuzzy state membership. Main results: the search
  finds every simple path once and returns the riskiest, forecasts of a worse present are worse for every horizon, and
  the exact thresholds for which the reported state never gets worse as the score rises.
- **Agent** (`SecureMode`, `SecureSteps`, `SecureContent`). The state machine of the self-generated password: bootstrap,
  report, restart, unlock, rotation, exit, self-recovery. Main results: an invariant of every run, a bound on how long an agent
  stays locked, and the exact conditions under which every step keeps the settings readable by the agent.
- **Federation and history** (`Text`, `FactMerge`, `FederationCollector`, `FederationExport`, `ProcRpc`, `FailTracker`).
  The node registry and the canonical export, the request and reply protocol with the child process, and the record of
  failing checks. Main results: the export holds exactly what the nodes' last reports say, every reply read answers the
  request just sent, and the tracker holds exactly the current failing streaks.

Floating-point numbers are real numbers here; `math.Round` is a floor-based function with its error bound and
monotonicity proved. Square root, power and logarithm are parameters of which only textbook facts are assumed
(`PrismCore.Lawful`, `PrismCore.LawfulPow`, `RealLemmas.IsRoot`, `Inference.LawfulLogs`). A domain score carries
its variance where the library stores the square root of it. Maps are walked in an arbitrary order. Code that
works step by step is a method or a class proved against a function of its inputs or of the old state; the
results about all inputs and all runs are lemmas about those functions. The kernel, the network, the disk's
failures and the clock are parameters that any value can be given.

Where code and comments differ, the model follows the code and a lemma records the difference:

- `ssam-lib/confidence.go:20-22` says shrinking lowers variance; it does exactly when the confidence is 1 or at least
  1/(k+2) (`ShrinkLowersVarianceIff`, `BetaVarianceSingleIff`).
- `ssam-lib/confidence.go:287-292` says both acceptance rules agree on an interval without spread; they differ for a
  negative score below a threshold that is not positive (`DegenerateRulesAgreeIff`), which validation rules out, so
  they agree on every assessment that is made without confidence (`DisabledRulesAgree`).
- `prism-lib/semantic.go:54-59` gives membership formulas other than the ones coded. The branch for all-zero memberships
  is reachable when thresholds nearly coincide (`DegenerateBranchDeadIff`), and then a higher score can be reported
  worse (`StateMonotoneIff` says exactly when).
- `extensions/federation/merge.go:45` says the later reporter decides zone, score, Forwards and StatefulInput. The code
  keeps the score of the smallest node id (`ScoreFollowsNodeOrder`), takes the disjunction of the two flags
  (`ExportedHostSays`), and lets the greatest node id that gives a zone decide it (`NodeZoneExportedIff`;
  `LaterReportLoses` is a history in which the later reporter's zone is not exported).
- Forward policies are keyed by joining their fields with a bar, so a bar inside a field can merge two policies
  (`PoliciesAreTriplesIff`, `BarsCollide`).
- `internal/securemode/vault.go:95-96`, `:326` and `:361` say a failure leaves the file as it was. The vault can report failure
  after its final rename took effect. The password in memory then stops opening the file (`CommandKeepsTieIff`), and a
  first encryption that ends so leaves the settings sealed under a password nobody holds, for good
  (`LateBootstrapStrands`, `StrandedForGood`).

## Model

| member | source | states |
|---|---|---|
| Rounding.Round2WithinHalfCent | ssam-lib/formulas.go:30 | every published score is within half a cent of the exact one |
| Rounding.HalvesRoundAway | ssam-lib/formulas.go:30 | halves are rounded away from zero |
| Rounding.Round2Monotone | ssam-lib/formulas.go:30 | rounding keeps order, so monotonicity survives publication |
| Rounding.Round2Idempotent | ssam-lib/ssam.go:48 | rounding an already rounded score changes nothing |
| Rounding.Round4Complement | prism-lib/semantic.go:96-99 | two complementary shares rounded apart sum to 1 or 1.0001 |
| Ordering.SortedListingUnique | ssam-lib/confidence.go:204-206 | a set of strings has one strictly sorted listing, so sorting removes the randomness of map order |
| Ordering.SortByKey | extensions/federation/collector.go:84 | sorting records with distinct keys yields a permutation in strict key order |
| Aggregation.BuildWeightMap | ssam-lib/formulas.go:51-57 | the loop builds the map in which later entries win |
| Aggregation.WeightMapLastWins | ssam-lib/formulas.go:51-57 | a domain is mapped iff configured, to the weight of its last entry |
| Aggregation.AccumulateWeighted | ssam-lib/formulas.go:8-15 | the accumulating loop computes weighted total and total weight over positively weighted domains |
| Aggregation.WeightTotalPositiveIff | ssam-lib/formulas.go:16-18 | the total weight is positive iff some scored domain has a positive weight |
| Aggregation.MeanMonotone | ssam-lib/formulas.go:8-20 | lowering domain scores never raises the weighted mean |
| Aggregation.MeanBounded | ssam-lib/formulas.go:8-20 | the mean lies in any range that holds all scores, and is 0 without weight |
| Aggregation.MeanBalancesIff | ssam-lib/formulas.go:8-20 | the mean is the one point at which the weighted deviations of the positively weighted scores cancel out |
| Aggregation.EvalProductChain | ssam-lib/ast.go:201-233 | the default strategy multiplies the active factors strictly between 0 and 1 |
| Aggregation.ProductChainRange | ssam-lib/ast.go:225-233 | the combined factor lies in (0,1] for any factor list |
| Aggregation.ProductChainMonotone | ssam-lib/ast.go:225-233 | lowering contributions factor by factor never raises the product |
| Aggregation.ChainMultiplies | ssam-lib/ast.go:225-233 | the combined factor of joined lists is the product of theirs; one alone gives its factor if active and strictly between 0 and 1, else 1 |
| Aggregation.ApplyEdgeFactorStrategyToBase | ssam-lib/ast.go:278-293 | multiplying the base factor by factor equals multiplying once by the strategy's value |
| FormulaAst.EvalWeightedSum | ssam-lib/ast.go:179-197 | the accumulating loop gives the weighted mean of the adjusted domains |
| FormulaAst.RunFormula | ssam-lib/ast.go:303-431 | the loop over the code, pushing and popping a slice, computes the top of the machine's final stack |
| FormulaAst.NothingIsZero | ssam-lib/ast.go:303-463 | code that leaves nothing, and a machine without a value on its stack, count as 0 |
| FormulaAst.CompiledCodePushesValue | ssam-lib/ast.go:303-463 | from any stack the code of a tree with all children ends in that stack plus exactly the tree's value |
| FormulaAst.NeverPopsBelow | ssam-lib/ast.go:325-420 | at every point of that code the original stack is intact below and each binary step finds two operands above it |
| FormulaAst.MissingChildrenStealOperands | ssam-lib/ast.go:433-463 | each missing child makes the code consume one operand of the surrounding formula |
| FormulaAst.BalancedIffWellFormed | ssam-lib/ast.go:433-463 | the code adds one value on every stack iff every binary node has both children |
| FormulaAst.EvaluatorSucceedsIff | ssam-lib/ast.go:37-177 | the evaluator succeeds iff the tree is well formed and all operators and references resolve |
| FormulaAst.FailureOrder | ssam-lib/ast.go:47-143 | a binary node reports a missing left operand, a missing right one, the left one's failure, the right one's, in this order, and otherwise combines the two values |
| FormulaAst.CombineMeans | ssam-lib/ast.go:67-143 | product, sum, quotient (0 within 1e-12 of a zero divisor), least and greatest |
| FormulaAst.ReferenceReads | ssam-lib/ast.go:150-177 | what every kind of reference reads, and the failure of one that does not resolve |
| FormulaAst.FirstScoreIs | ssam-lib/ast.go:158-164 | a domain's score is that of its first entry |
| FormulaAst.FirstWeightIs | ssam-lib/ast.go:165-172 | its weight that of its first configured one |
| FormulaAst.RefReadingsEqualIff | ssam-lib/ast.go:150-177 | evaluator and compiled code read a reference alike iff intrinsic is 1 or first and last weight entries agree |
| FormulaAst.CompiledAgreesWithEvaluator | ssam-lib/ast.go:37-177 | compiled code gives the evaluator's value when references read alike, and the lenient value on every well-formed tree |
| FormulaAst.CompilerCorrect | ssam-lib/ast.go:303-463 | with intrinsic 1 and distinct weight domains, whenever the evaluator succeeds the compiled formula gives the same value |
| FormulaAst.CompilerCorrectIff | ssam-lib/ast.go:37-177 | evaluator and compiled code agree on every tree the evaluator accepts iff intrinsic is 1 and the first and last entries of each configured domain carry the same weight |
| FormulaAst.DuplicateWeightReadsDiffer | ssam-lib/ast.go:165-172 | a domain configured twice is read as its first weight by one and its last by the other |
| Formulas.SSAMV12Formula | ssam-lib/formulas.go:5-31 | the loop formula is the rounded weighted mean times coefficients times combined factors |
| Formulas.V12TreeRefinesFormula | ssam-lib/formulas_ast.go:3-27 | the v1.2 tree, evaluated or compiled, is the v1.2 formula before its rounding |
| Formulas.SSAMV20Formula | ssam-lib/formulas_v2.go:8-94 | the three-layer total and every layer's coefficient, weight and contributors, with and without weighted domains |
| Formulas.LayersAre | ssam-lib/formulas_v2.go:8-94 | the layers' weights, coefficients and contributors, and that they add up to the total but for rounding |
| Formulas.V20TreeEvaluates | ssam-lib/formulas_ast.go:29-99 | evaluator and compiled code give the v2.0 tree one value |
| Formulas.V20TreeRefinesFormulaIff | ssam-lib/formulas_ast.go:29-99 | tree and formula are within 0.0075 iff some domain has positive weight and both coefficients are positive |
| Formulas.LayeredTotalGap | ssam-lib/formulas_v2.go:46-71 | rounding the intrinsic layer and the total costs at most 0.0075 iff no coefficient is replaced |
| Confidence.ShrinkTowardsOne | ssam-lib/confidence.go:81-86 | shrinking divides the distance from 1 by k+1, never lowers a confidence and fixes only 1 |
| Confidence.EffectiveConfidenceRange | ssam-lib/confidence.go:93-132 | the confidence used is in (0,1], and 1 when the policy is disabled |
| Confidence.ConfidenceInForce | ssam-lib/confidence.go:81-132 | the confidence used from the one stated: default, floor, cap and prior, each where it applies |
| Confidence.EffectiveConfidenceMonotone | ssam-lib/confidence.go:93-132 | a higher stated confidence is never used as a lower one |
| Confidence.DomainBayes | ssam-lib/confidence.go:148-174 | the loop computes score, variance and evidence confidence of one domain |
| Confidence.DomainScoreRange | ssam-lib/confidence.go:148-174 | scores lie in [0,100] and evidence confidence in (0,1] |
| Confidence.OneMoreCheckCounts | ssam-lib/confidence.go:148-174 | one more failed check of the domain takes delta times confidence off the score and adds a Bernoulli variance, any other check changes nothing |
| Confidence.EvidenceConfidenceIsRatio | ssam-lib/confidence.go:148-174 | the evidence confidence is the part of the deduction without confidences that is made |
| Confidence.DisabledPolicyIsLegacy | ssam-lib/confidence.go:148-174 | with the policy disabled the score is 100 less the plain deltas, without spread |
| Confidence.DomainScoreMonotone | ssam-lib/confidence.go:148-174 | failing a check, or trusting a failed one more, never raises the domain score |
| Confidence.ComputeDomainScoresBayes | ssam-lib/confidence.go:181-208 | whatever the map order, the result is the one list of active domains in name order |
| Confidence.DomainScoredIff | ssam-lib/confidence.go:181-208 | a domain is scored iff some check is filed under it or, without any check, it is configured |
| Confidence.DomainScoresMonotone | ssam-lib/confidence.go:181-208 | worse checks list the same domains and lower every score |
| Confidence.BetaNeverRaisesScore | ssam-lib/confidence.go:76-103 | switching a domain to beta_bayes never raises its score |
| Confidence.ShrinkLowersVarianceIff | ssam-lib/confidence.go:20-22 | shrinking lowers one check's variance iff its confidence is 1 or at least 1/(k+2) |
| Confidence.BetaNeverRaisesVariance | ssam-lib/confidence.go:81-174 | a domain's variance does not grow when every failed check is trusted at least 1/(k+2) |
| Confidence.BetaVarianceSingleIff | ssam-lib/confidence.go:20-22 | for a single failed check that bound is exact |
| Posterior.FinalBayesStats | ssam-lib/confidence.go:244-261 | sigma is the non-negative root of a quarter of the weighted variances over the squared total weight, 0 without weight |
| Posterior.OneMoreDomainVaries | ssam-lib/confidence.go:244-261 | one more weighted domain adds a quarter of its squared weight times its variance, over the squared total weight |
| Posterior.ConfidenceInterval | ssam-lib/confidence.go:274-285 | both ends, only the lower one cut at 0 and a negative sigma read as 0 |
| Posterior.IntervalEnds | ssam-lib/confidence.go:274-285 | the ends lie 1.96 sigmas from the point, the lower one not below 0 |
| Posterior.IntervalHoldsPointIff | ssam-lib/confidence.go:263-285 | the interval contains its point iff the point is not negative |
| Posterior.LowerBoundIsStricter | ssam-lib/confidence.go:287-298 | accepting by the lower bound implies accepting by the point and by any narrower interval |
| Posterior.DegenerateRulesAgreeIff | ssam-lib/confidence.go:287-298 | without spread the two rules agree iff the threshold is not above a negative point and at most 0 |
| Posterior.AggregateNodeConfidence | ssam-lib/confidence.go:304-320 | the loop computes the weighted mean of evidence confidences, 1 without weight |
| Posterior.FillPosterior | ssam-lib/ssam.go:135-152 | spread, interval around the final score, and node confidence |
| Posterior.AssessmentsHaveVariances | ssam-lib/confidence.go:148-208 | every domain score of an assessment has a non-negative variance, as the root needs |
| Posterior.NodeConfidenceWithin | ssam-lib/confidence.go:304-320 | a node is trusted no less than its least trusted domain and at most fully |
| Posterior.NodeConfidenceBalances | ssam-lib/confidence.go:304-320 | at the node confidence the weighted deviations of the domains' confidences cancel out; without weight it is 1 |
| Posterior.BetaNeverWidensInterval | ssam-lib/confidence.go:181-261 | if every failed check is trusted at least 1/(k+2), switching to beta_bayes raises no domain score and does not widen the final variance |
| Posterior.DisabledIntervalIsPoint | ssam-lib/ssam.go:135-152 | with the policy disabled the interval of a non-negative score is the score |
| Posterior.SpreadOrderIff | ssam-lib/confidence.go:148-174 | raising one check's confidence from c to c' does not shrink its spread iff they are equal or sum to at most 1 |
| Posterior.LowerBoundFalls | ssam-lib/confidence.go:244-285 | worse evidence whose spreads do not shrink never raises the lower bound |
| EdgeFactors.BuildCustomFactorMap | ssam-lib/formulas.go:66-72 | the map from factor id to the last configured value |
| EdgeFactors.CustomRepeatsOwnFactor | ssam-lib/formulas.go:66-72 | the custom map built from a configuration overrides nothing |
| EdgeFactors.CollectTriggers | ssam-lib/ssam.go:226-243 | each factor is triggered at exactly the confidence its failed checks give |
| EdgeFactors.TriggerConfIsMax | ssam-lib/ssam.go:230-243 | a trigger's confidence is the maximum over matching failed checks, none iff there is no such check |
| EdgeFactors.TriggerConfPermutes | ssam-lib/ssam.go:230-243 | permuting the checks changes no trigger |
| EdgeFactors.CollectOverrides | ssam-lib/ssam.go:245-250 | walking the map in some order leaves the overrides of that order: for each target the value of its last triggered source |
| EdgeFactors.WalksAreValid | ssam-lib/ssam.go:245-250 | every order leaves, for exactly the targets of triggered sources, the value of one of them |
| EdgeFactors.EveryChoiceIsWalked | ssam-lib/ssam.go:245-250 | every such choice is left by some order of the map |
| EdgeFactors.EvaluateFactor | ssam-lib/ssam.go:252-293 | one factor's result from its trigger, custom value and override |
| EdgeFactors.EntrySays | ssam-lib/ssam.go:252-293 | the whole entry of a factor from its configuration, its trigger, a custom value and a cascade value |
| EdgeFactors.ApplyEdgeFactorsToChecksPolicy | ssam-lib/ssam.go:220-299 | one result per factor in id order, for some valid choice of overrides, and for the only outcome when the triggered sources of each target agree |
| EdgeFactors.OrderIrrelevantIff | ssam-lib/ssam.go:245-299 | the results are the same for any two orders of the map iff any two triggered sources of a configured target lower its softened factor equally far |
| EdgeFactors.MapOrderIrrelevant | ssam-lib/ssam.go:245-299 | under that condition every walk of the map gives one list of results |
| EdgeFactors.UniqueSourcesAgree | ssam-lib/ssam.go:245-250 | one source per target meets it, whatever is triggered |
| EdgeFactors.CheckOrderIrrelevant | ssam-lib/ssam.go:220-299 | permuting the checks changes neither the possible overrides nor the results under any of them, for every configuration |
| EdgeFactors.TwoSourcesDisagree | ssam-lib/ssam.go:245-299 | with two triggered sources that lower a configured target to different factors, two orders of the map give different results |
| EdgeFactors.TriggeredFactor | ssam-lib/ssam.go:252-293 | in the results of a configuration, whatever the map order, the entry of a factor f strictly between 0 and 1, triggered at confidence c, to which nothing cascades, is 1-(1-f)c |
| EdgeFactors.ContributionMonotone | ssam-lib/ssam.go:252-293 | a stronger trigger never raises a factor's contribution when overrides are safe, triggers fully trusted, or overrides come with the factor's own trigger |
| EdgeFactors.TriggerUnderOverrideRaisesIff | ssam-lib/ssam.go:258-279 | under a cascade value, triggering raises the contribution iff the trigger is not fully trusted and the value exceeds the factor |
| EdgeFactors.ContributionsFallIff | ssam-lib/ssam.go:220-299 | with one source per target, no factor's contribution ever rises on worse checks iff confidence is off or every cascade value is no milder than its target's factor or shares its trigger check |
| EdgeFactors.UnsafeCascadeRaises | ssam-lib/ssam.go:258-279 | any other cascade lets failing the target's check at half confidence raise its contribution |
| EdgeFactors.EdgeProductMonotone | ssam-lib/ssam.go:220-299 | worse checks never raise the combined multiplier, given one source per target and safe cascades |
| EdgeFactors.DefaultsAreSafe | ssam-lib/defaults.go:10-18 | the shipped factors meet both conditions under every policy |
| Scoring.ValidateInput | ssam-lib/validation.go:5-18 | the first problem of host, threshold or checks, or none |
| Scoring.InputErrorIs | ssam-lib/validation.go:5-18 | each error is reported iff it is the first in the order host, threshold, domain |
| Scoring.FormulaNames | ssam-lib/ssam.go:63-123 | which formula each name stands for |
| Scoring.AssessmentSays | ssam-lib/ssam.go:22-152 | what an assessment hands back of its input, when it is rejected and when acceptable |
| Scoring.CoefficientsLeftOut | ssam-lib/ssam.go:27-37 | a coefficient left out counts as 1, and no exposure less than 0.60 |
| Scoring.ComputeScoreInternal | ssam-lib/ssam.go:22-133 | the whole assessment: validation, domains, factors, formula choice, statistics, acceptability, rejection; independent of map order when the triggered sources of each target agree |
| Scoring.ComputeScoreV2 | ssam-lib/formulas_v2.go:108-154 | the v2 assessment with its layers, statistics and acceptability, which never rejects a result |
| Scoring.SimpleWeightedFormula | ssam-lib/formulas.go:33-49 | the rounded weighted mean |
| Scoring.V20IgnoresSign | ssam-lib/formulas_v2.go:96-106 | normalised coefficients are positive and those that were are kept; normalising beforehand changes no total, the formula does it too |
| Scoring.FormulaScoreMonotone | ssam-lib/ssam.go:63-123 | under every formula a non-negative score stays non-negative and does not rise on worse domains and factors |
| Scoring.ScoreMonotone | ssam-lib/ssam.go:22-133 | failing a passed check or trusting a failed one more never raises the final score, never makes it acceptable by the point, and never turns a score into an error |
| Scoring.AcceptanceMonotone | ssam-lib/ssam.go:22-152 | nor acceptable by the lower bound, for two inputs in which no failed check becomes so much more trusted that its spread shrinks |
| Acceptance.AcceptanceMonotoneIff | ssam-lib/ssam.go:22-152 | worse evidence never makes any assessment acceptable, under either rule, iff the confidence policy is disabled |
| Acceptance.EnabledAcceptanceSwings | ssam-lib/confidence.go:244-298 | under every enabled policy, fully trusting one nearly trusted failed check of full impact makes a host acceptable at 50 |
| Acceptance.LowerBoundAcceptanceSwings | ssam-lib/confidence.go:287-298 | for instance, fully trusting a half trusted one lowers the score from 95 to 90 and makes it acceptable at 88 |
| Acceptance.AcceptanceV2MonotoneIff | ssam-lib/formulas_v2.go:108-154 | the same exact condition for the v2 entry point |
| Scoring.DisabledRulesAgree | ssam-lib/confidence.go:287-298 | with the policy disabled both acceptance rules decide every assessment alike |
| Scoring.EntryPointsAgree | ssam-lib/ssam.go:63-133 | under the v2.0 formula both entry points give the same score, domains, factors, statistics and acceptability; the first rejects in addition exactly the totals outside [0,100] |
| Scoring.TotalV2Monotone | ssam-lib/formulas_v2.go:108-154 | the same for the v2 total and both of its acceptance rules |
| PrismCore.ComputePropagatedRisk | prism-lib/core.go:54-82 | the loops compute the maximum, the root of squares or the capped sum of spills, unknown sources skipped |
| PrismCore.ComputePropagatedRiskRSS | prism-lib/core.go:84-96 | the root of the sum of squares, at most 1 |
| PrismCore.SpillScales | prism-lib/core.go:41-51 | a spill is what is wrong upstream times the transmission times half more than the criticality; unknown hosts spill nothing |
| PrismCore.OneMoreSource | prism-lib/core.go:54-96 | one more edge: the maximum of old risk and spill, their sum up to 1, or the square root of the sum of their squares up to 1 |
| PrismCore.NothingIncoming | prism-lib/core.go:54-96 | no edge, no risk |
| PrismCore.SourceOrderIrrelevant | prism-lib/core.go:54-96 | permuting the edges changes nothing in any mode |
| PrismCore.AggregationOrder | prism-lib/core.go:54-96 | capped at no more than 1, max is at most rss and rss at most linear, for any non-negative spills |
| PrismCore.CapAboveOneBreaksOrder | prism-lib/core.go:54-96 | every cap above 1 admits edges for which max exceeds rss |
| PrismCore.ComputeDebtRaw | prism-lib/core.go:116-130 | the loop sums the confidence-weighted debts |
| PrismCore.DebtMonotone | prism-lib/core.go:116-130 | debt is non-negative and only grows with time |
| PrismCore.EffectiveFailureCount | prism-lib/core.go:135-141 | the loop sums the failures' confidences |
| PrismCore.OneMoreFailureAdds | prism-lib/core.go:98-141 | one more failure adds its delta times confidence times age to the alpha to the debt, and its confidence to the count |
| PrismCore.CollapseIs | prism-lib/core.go:148-163 | no collapse below two failures or without debt, else debt over the norm times the root of the count, to the beta, at most 1 |
| PrismCore.ExactScoreIs | prism-lib/core.go:182-208 | what the three penalties, each capped, leave of the static score one after another, between its floor and 100 |
| PrismCore.ComputeDynamicScore | prism-lib/core.go:182-224 | score, penalties, risks, debt and failure count are the rounded exact ones |
| PrismCore.ScoreStaysInBand | prism-lib/core.go:182-208 | the exact dynamic score lies between floor times static score and static score |
| PrismCore.ScoreFallsWithTime | prism-lib/core.go:116-208 | as time passes with nothing fixed the score never rises |
| PrismCore.ScoreFallsWithUpstream | prism-lib/core.go:45-208 | when upstream hosts score worse and transmit no less, the score downstream never rises, in any mode |
| PrismCore.ScoreFallsAlongFixedEdges | prism-lib/core.go:45-208 | in particular along fixed edges, whatever the range of upstream scores |
| PrismCore.ScoreFallsWithWeightedUpstream | prism-lib/core.go:10-35 | and along edges whose transmissions are recomputed from the sources' scores |
| PrismCore.WeightedTransmissionGrows | prism-lib/core.go:23-35 | a weighted transmission keeps between a tenth and all of its base and grows as the source worsens |
| PrismCore.WeightedTransmissionIs | prism-lib/core.go:23-35 | a straight line from all of the base at a source scoring 0 to a tenth at one scoring 100 |
| PrismCore.AddedFailureRatioIff | prism-lib/core.go:148-163 | one more failure raises the collapse ratio iff its debt outgrows the root in the denominator |
| PrismCore.CollapseDropsIff | prism-lib/core.go:148-163 | one more failure makes collapse milder iff its debt does not outgrow the count and the outcome is below saturation |
| PrismCore.AddedFailureLowersScoreWhen | prism-lib/core.go:148-208 | otherwise the score does not rise |
| PrismCore.AddedFailureRaisesScoreIff | prism-lib/core.go:148-208 | any failure raises the score iff debt and collapse with it counted leave a greater part of the score than before and the floor does not bind |
| PrismCore.FreshFailureNeverLowersScore | prism-lib/core.go:148-208 | a failure too recent to carry debt, added to two or more, never lowers the score |
| PrismCore.FreshFailureRaisesScoreIff | prism-lib/core.go:148-208 | it raises the score iff there was debt, collapse ends below saturation and the floor does not bind |
| PrismCore.FreshFailureCanRaiseScore | prism-lib/core.go:148-208 | a host with two failures a day old whose score rises when a third is seen |
| Paths.PathFinder.Dfs | prism-lib/paths.go:34-72 | appends exactly the walks due from here with their running risk and restores the visited set |
| Paths.PathFinder.Follow | prism-lib/paths.go:50-71 | one edge: entered unless its end is visited or the current host unknown, and undone afterwards |
| Paths.SearchFindsSimplePaths | prism-lib/paths.go:21-74 | a walk is found iff it is a simple path of 1 to maxDepth hops through known hosts, and none is found twice |
| Paths.WalksExact | prism-lib/paths.go:34-72 | from any visited host the walks found are the routes that avoid the visited hosts and fit the remaining depth |
| Paths.SourceIsTarget | prism-lib/paths.go:34-47 | no path leads from a host to itself |
| Paths.RunningRiskIsPathRisk | prism-lib/paths.go:58-68 | the accumulated risk is the sum over hops of spill times PathDecay to the hop |
| Paths.RiskByFirstHop | prism-lib/paths.go:58-68 | a path's risk is that of its first hop plus the decayed risk of the rest |
| Paths.FoundThroughEdge | prism-lib/paths.go:58-70 | descending along an edge and reporting from there is reporting the longer walks from here |
| Paths.FindPropagationPaths | prism-lib/paths.go:5-94 | the result and what was cut off are exactly the simple paths of up to maxDepth hops with their risks, sorted by risk, none cut that is riskier than one returned, and cut only at limit (defaults: the configured depth, 10) |
| Inference.MatMulVec4 | prism-lib/inference.go:28-38 | the double loop is the vector-matrix product |
| Inference.MatPow | prism-lib/inference.go:41-81 | exponentiation by squaring, updating result, base and n, is the n-fold product; a count below 1 gives the identity |
| Inference.StepByStep | prism-lib/inference.go:41-81 | n steps are one step more than n - 1, none where n is not positive |
| Inference.MatMulAssociates | prism-lib/inference.go:41-81 | the 4x4 product is associative |
| Inference.PowAdds | prism-lib/inference.go:41-81 | powers add in the exponent |
| Inference.PowerKeepsMass | prism-lib/inference.go:219-227 | any number of stochastic steps keeps total mass and non-negativity |
| Inference.PowerKeepsOrder | prism-lib/inference.go:219-227 | any number of monotone steps keeps a worse distribution worse in all tail sums |
| Inference.PowerIsMonotone | prism-lib/inference.go:41-81 | powers of a monotone stochastic matrix are monotone and stochastic |
| Inference.DefaultTransitionIsMonotone | prism-lib/inference.go:17-24 | the default matrix is stochastic and its rows worsen |
| Inference.NewMarkovChainModel | prism-lib/inference.go:91-99 | a zero matrix is replaced by the default one, any other kept |
| Inference.ModelKept | prism-lib/inference.go:91-99 | a matrix with any entry that is not zero is used as it is |
| Inference.DefaultStep | prism-lib/inference.go:17-24 | one step of the default model from each state |
| Inference.MarkovPredict | prism-lib/inference.go:219-256 | the forecast is the present times the n-fold product, its confidence the clamped product of entropy, horizon and concentration terms |
| Inference.HorizonBoundsConfidence | prism-lib/inference.go:229-255 | a forecast from a distribution is never trusted more than the horizon decay |
| Inference.MarkovConfidenceIs | prism-lib/inference.go:229-255 | what the entropy leaves of two bits, times the decay, times the length of the present, cut off at 0 and 1 |
| Inference.EntropyExamples | prism-lib/inference.go:231-238 | no entropy on one state, one bit over two, two bits over four |
| Inference.DecayHalvesAtFifty | prism-lib/inference.go:240-241 | the decay of n steps is 1 over 1 + n/50 |
| Inference.MarkovPredictionMonotone | prism-lib/inference.go:91-99 | for every horizon a worse present predicts a worse future, under the default model or any stochastic one whose rows worsen |
| Inference.MarkovPredictionKeepsMass | prism-lib/inference.go:219-227 | a forecast keeps the total mass and stays free of negative entries |
| Inference.NewBayesModel | prism-lib/inference.go:124-165 | the in-place filling and normalising leaves each row of the table at its normalised value |
| Inference.TablesAreMonotone | prism-lib/inference.go:124-165 | both tables are stochastic and monotone, and bad evidence dominates good |
| Inference.BayesPredict | prism-lib/inference.go:169-212 | the iteration is repeated multiplication by the two tables blended with the evidence weight; its confidence comes from the entropy lost and the horizon |
| Inference.BayesStepByStep | prism-lib/inference.go:169-190 | each step passes every state on by the two tables, weighed by the evidence in the present, not by what has been predicted so far |
| Inference.BayesConfidenceIs | prism-lib/inference.go:192-211 | half of one plus the entropy lost in units of two bits, times the decay, cut off at 0 and 1 |
| Inference.NothingCutOff | prism-lib/inference.go:192-255 | between distributions of at most two bits neither is cut off |
| Inference.EvidenceWeightRange | prism-lib/inference.go:172-176 | without negative entries the evidence weight lies between 0 and 0.8 of the mass and grows with the tails |
| Inference.BayesFutureKeepsMass | prism-lib/inference.go:169-190 | any number of Bayes steps keeps mass and non-negativity, for every vector whose evidence weight is a fraction |
| Inference.BayesPredictionMonotone | prism-lib/inference.go:169-190 | of two such vectors of equal mass the worse predicts the worse future, though the two runs blend differently |
| Semantic.MembershipSupport | prism-lib/semantic.go:10-84 | memberships are fractions, each positive exactly on its own open stretch of the scale |
| Semantic.NeverAllZero | prism-lib/semantic.go:60-84 | the memberships of a score are never all zero |
| Semantic.DetermineCurrentState | prism-lib/semantic.go:87-119 | the loops give the rounded shares and the first of the largest |
| Semantic.DegenerateBranchDead | prism-lib/semantic.go:90-104 | thresholds with visible gaps keep every score out of the degenerate branch |
| Semantic.DegenerateBranchDeadIff | prism-lib/semantic.go:90-104 | for all ordered thresholds the branch is unreachable iff the two lower thresholds themselves do not fall into it; within the scale, iff both gaps are visible |
| Semantic.SharedDominant | prism-lib/semantic.go:95-119 | between two sharing states the better is reported iff its rounded share is at least the other's |
| Semantic.StateMonotone | prism-lib/semantic.go:60-119 | under the exact condition below, rounding and ties included, the reported state never gets worse as the score rises |
| Semantic.StateMonotoneIff | prism-lib/semantic.go:60-119 | for all ordered thresholds the order is kept iff each hidden gap is harmless: the scale ends below or within it, or (the upper one) Stable already leads where the total shows again |
| Semantic.OrderKeptOnScaleIff | prism-lib/semantic.go:60-119 | with all thresholds on the scale: iff the lower gap shows and the upper one shows or is hidden that far |
| Semantic.ShortScaleBreaksOrder | prism-lib/semantic.go:60-119 | a scale that ends between a hidden lower gap and the degraded threshold: the untrusted threshold is reported Stable, a higher score worse |
| Semantic.StableIffPastTip | prism-lib/semantic.go:96-119 | between Stable and Degraded, Stable is reported iff its share exceeds 0.49995 |
| Semantic.StableOnceDegenerate | prism-lib/semantic.go:89-119 | once a score falls into the degenerate branch under that condition, every higher one is reported Stable |
| Semantic.TippedGapBreaksOrder | prism-lib/semantic.go:89-119 | an upper gap hidden but not far enough: the threshold is reported Stable, a higher score within the gap Degraded |
| Semantic.HiddenGapBreaksOrder | prism-lib/semantic.go:89-119 | with an invisible lower gap a lower score is reported Stable and a higher one Degraded |
| Semantic.NarrowGapMisreports | prism-lib/semantic.go:89-119 | concrete thresholds and two publishable scores for which that happens |
| Semantic.PublishedVectorFits | prism-lib/semantic.go:95-119 | every published state vector has no negative entry, totals 1 or 1.0001, and has an evidence weight below 1 |
| SecureMode.Vault.EncryptFile | internal/securemode/vault.go:104-157 | success, clean failure, residue and late failure leave the disk as stated |
| SecureMode.Vault.DecryptFile | internal/securemode/vault.go:186-214 | only the right password opens; the failures leave the disk as stated |
| SecureMode.Vault.RotatePassword | internal/securemode/vault.go:327-353 | content kept, key replaced, even when the failure comes late |
| SecureMode.Vault.ReencryptOverwrite | internal/securemode/vault.go:362-380 | new content under a new key without the old one |
| SecureMode.Agent.InitSecureMode | internal/agent/securemode.go:50-124 | a start classifies the disk and locks the agent when only the encrypted file is there |
| SecureMode.Agent.SecureMaybeBootstrap | internal/agent/securemode.go:139-162 | plaintext is encrypted under a generated password, which becomes unreported |
| SecureMode.Agent.AttachSecureModeReport | internal/agent/securemode.go:180-201 | what a heartbeat carries, by lock state, report state and channel |
| SecureMode.Agent.ExecuteSecureModeCommand | internal/agent/securemode.go:209-273 | the effect of each kernel command on memory and disk |
| SecureMode.Agent.UnlockWithPassword | internal/agent/securemode.go:280-294 | unlocks iff the password opens the file and it can be read |
| SecureMode.IssuedPasswordUnlocksIff | internal/agent/securemode.go:280-319 | a cycle whose response brings a password unlocks a locked agent iff the file is encrypted under it and can be read; otherwise it counts a miss and recovers nothing |
| SecureMode.UnlockCommandIff | internal/agent/securemode.go:251-260 | the same for an unlock command, which counts no miss |
| SecureMode.Agent.HandleSecureModeResponse | internal/agent/securemode.go:308-346 | a wrong password counts without a threshold test, a missing one counts and may start recovery |
| SecureMode.Agent.SecureSelfRecover | internal/agent/securemode.go:359-384 | overwrites the file under a fresh password and unlocks, or leaves the agent's memory as it was |
| SecureMode.Agent.SecureReArmReport | internal/agent/securemode.go:391-399 | a lost registration arms the report of an unlocked agent |
| SecureMode.Agent.ExecutePendingCommands | internal/agent/agent.go:971-986 | all verified commands in order, then none pending |
| SecureMode.Agent.HeartbeatCycle | internal/agent/agent.go:548-664 | the secure-mode steps of a cycle in their order, for every fate of the heartbeat |
| SecureMode.RunKeepsInvariant | internal/agent/securemode.go:139-384 | in every run whose steps avoid the exact conditions below a password in memory is the one the config is encrypted under, and a reported one was accepted over a verified channel |
| SecureMode.CommandKeepsInvariantIff | internal/agent/securemode.go:209-273 | a command breaks the whole invariant iff it fails late as below or, an exit failing late, takes a locked agent's file away |
| SecureMode.CommandKeepsTieIff | internal/agent/securemode.go:209-273 | a command breaks that tie iff its vault operation fails late |
| SecureMode.RecoveryKeepsTieIff | internal/agent/securemode.go:359-384 | the exact condition under which self-recovery breaks it |
| SecureMode.LateRotationStrandsPassword | internal/securemode/vault.go:327-353 | a rotation whose last sync fails leaves the agent with the old password |
| SecureMode.NoLonePlaintextWhenSending | internal/agent/agent.go:548-610 | whenever an unlocked agent sends, plaintext on disk has an encrypted copy beside it |
| SecureMode.ExitUndoneInSameCycle | internal/agent/agent.go:548-557 | an exit command that works is undone by the bootstrap of the same cycle, under a new password |
| SecureMode.RecoveryIsFresh | internal/agent/securemode.go:308-384 | recovery ends unlocked, encrypted under the generated password, report re-armed, counter cleared |
| SecureMode.LockedCycle | internal/agent/securemode.go:308-346 | an agent still locked after a cycle has counted its miss, stays under the threshold and was not flagged |
| SecureMode.UnlockedStaysUnlocked | internal/agent/agent.go:548-664 | no cycle locks an unlocked agent |
| SecureMode.LockedMeansFewMisses | internal/agent/securemode.go:23-29 | over a whole run a locked agent has seen fewer password-less acceptances than the threshold, failed unlocks never resetting the count |
| SecureMode.LockedSawNoFlag | internal/agent/securemode.go:308-346 | ... and none flagged NoSecret |
| SecureMode.EnoughMissesUnlock | internal/agent/securemode.go:308-384 | the threshold number of misses, or one flagged, and the agent is unlocked |
| SecureMode.RotationWhileLockedStrands | internal/agent/securemode.go:225-250 | a rotation executed while locked leaves a file that no password the kernel knows opens, unreported |
| SecureSteps.StartOutcome | internal/agent/securemode.go:50-124 | when a start is refused, when it locks, and where the channel settings come from |
| SecureSteps.ReadyMeans | internal/agent/agent.go:548-557 | before it sends, a cycle takes the queued commands from the front, each if it verifies, and bootstraps once the queue is empty |
| SecureSteps.BootstrapOutcome | internal/agent/securemode.go:139-162 | when a bootstrap is due, when it works, and what each outcome changes |
| SecureSteps.HeartbeatCarries | internal/agent/securemode.go:180-201 | a password is carried iff it is unlocked, unreported and the channel verified |
| SecureSteps.EncryptedDecrypts | internal/securemode/vault.go:104-214 | what is encrypted decrypts under that password alone to the same plaintext |
| SecureSteps.RotatedDecrypts | internal/securemode/vault.go:327-353 | a rotated file decrypts under the new password to the same content, and only the old one rotates it |
| SecureSteps.OverwrittenDecrypts | internal/securemode/vault.go:362-380 | an overwritten file decrypts to the new content |
| SecureSteps.ExitOutcome | internal/agent/securemode.go:225-240 | an exit for every password and fault |
| SecureSteps.RotationOutcome | internal/agent/securemode.go:241-250 | a rotation for every password, generator and fault |
| SecureSteps.OtherCommandOutcome | internal/agent/securemode.go:209-273 | enter is a bootstrap; other commands, and any to an inactive agent, do nothing |
| SecureSteps.CommandsInOrder | internal/agent/agent.go:971-986 | queued commands take effect one after another |
| SecureSteps.OneCommand | internal/agent/agent.go:971-986 | one that does not verify has no effect |
| SecureSteps.NoResponseNoChange | internal/agent/agent.go:600-664 | a heartbeat that is not accepted changes nothing |
| SecureSteps.OkMeans | internal/agent/securemode.go:280-384 | unlocking and self-recovery report success iff they leave no active agent locked |
| SecureSteps.MissOutcome | internal/agent/securemode.go:321-384 | a miss for every threshold, flag and fate of the recovery |
| SecureSteps.AcceptanceOutcome | internal/agent/securemode.go:391-399 | when an unlocked agent's secret counts as reported |
| SecureSteps.IndexOfIsFirst | internal/securemode/vault.go:305-325 | the search for the section finds the first occurrence |
| SecureSteps.ReadableSectionSurvives | internal/agent/securemode.go:367-375 | what can be read without the password after self-recovery is what could be before, save for line breaks at its end |
| SecureContent.CycleKeepsContent | internal/agent/agent.go:548-664 | whatever faults the vault shows, the settings that lie in plaintext or sealed, possibly under a password nobody holds, change in a cycle only by self-recovery |
| SecureContent.RunKeepsContent | internal/agent/securemode.go:139-384 | the same over whole runs |
| SecureContent.BootstrapKeepsKeyIff | internal/agent/securemode.go:139-162 | an unlocked agent with only the encrypted file still has its password after a bootstrap iff the encryption does not fail in its last sync (or succeed with an empty password) |
| SecureContent.CommandKeepsKeyIff | internal/agent/securemode.go:209-273 | ... after a command iff it is neither such a bootstrap nor a rotation that fails after re-keying to a password not in memory |
| SecureContent.RecoveryKeepsKeyIff | internal/agent/securemode.go:359-384 | ... after a self-recovery unless it succeeds with an empty password |
| SecureContent.RunKeepsKey | internal/agent/securemode.go:139-384 | in every run, restarts included, whose steps meet these conditions the password is in memory |
| SecureContent.KeyMeansReadable | internal/securemode/vault.go:288-296 | an unlocked agent can read its settings iff it holds the key |
| SecureContent.RunKeepsSettingsReadable | internal/agent/securemode.go:139-384 | in a run without self-recovery whose steps lose no key, an agent that is or was unlocked reads at the end the settings that were on disk at the start |
| SecureContent.LateBootstrapStrands | internal/agent/securemode.go:155-160 | a first heartbeat whose encryption fails in its last sync breaks no rule above and leaves the settings sealed under a password nobody holds, unreported |
| SecureContent.StrandedForGood | internal/agent/agent.go:548-664 | and there they stay in every run of cycles in which no exit or rotation carries that password |
| Text.TrimSpaceIdempotent | extensions/federation/collector.go:46 | a trimmed id has nothing left to trim |
| Text.TrimSpaceTakesEnds | extensions/federation/collector.go:46 | trimming takes white space off both ends and nothing else |
| FactMerge.NormalizeFactSubnets | extensions/federation/export.go:176-194 | the loop yields the set of normalised non-blank subnets without repeats |
| FactMerge.OneNetworkOneText | extensions/federation/export.go:176-194 | two spellings of one network become the network's own text; what is none is only trimmed |
| FactMerge.UnionStrings | extensions/federation/merge.go:166-178 | the sorted duplicate-free union without blanks |
| FactMerge.Merger.MergeHost | extensions/federation/export.go:62-97 | after each fact every host's record says what all its facts so far say |
| FactMerge.Merger.MergePolicy | extensions/federation/export.go:104-109 | the policy map is the fold of all policies so far |
| FactMerge.ExportFromFacts | extensions/federation/export.go:132-161 | whatever the map order, hosts come out by id and policies by key |
| FactMerge.ExportedIds | extensions/federation/export.go:132-150 | the exported hosts are the sorted union of reported ids |
| FactMerge.ExportedHostSays | extensions/federation/export.go:62-97 | addresses and subnets are sorted duplicate-free unions, Forwards and StatefulInput disjunctions |
| FactMerge.DirectedFactsConserved | extensions/federation/export.go:87-88 | each inbound and outbound fact occurs as often as it was reported for the host |
| FactMerge.FactOrderIrrelevant | extensions/federation/export.go:62-97 | reordering the facts changes none of these |
| FactMerge.LinksLastWins | extensions/federation/export.go:71-75 | a link is exported iff reported, with the state last reported |
| FactMerge.FirstScoreKept | extensions/federation/export.go:64-79 | a host keeps the score of the first fact about it |
| FactMerge.PoliciesAreTriplesIff | extensions/federation/export.go:104-118 | the exported policies are exactly the normalised triples iff keys tell them apart |
| FactMerge.NoBarsNoCollisions | extensions/federation/export.go:107 | they do when no source contains a bar |
| FactMerge.BarsCollide | extensions/federation/export.go:107 | two different policies with the same key |
| FederationCollector.Collector.Apply | extensions/federation/collector.go:45-61 | rejects exactly the blank sender; otherwise registers the stamped report in place of the sender's earlier one |
| FederationCollector.Collector.Nodes | extensions/federation/collector.go:73-86 | the last stamped report of each sender in id order |
| FederationCollector.ListedReportIs | extensions/federation/collector.go:45-86 | each listed report is its node's last one, trimmed and stamped, otherwise as it came |
| FederationCollector.LastIsFrom | extensions/federation/collector.go:45-61 | a node's last report comes from it and none after it does |
| FederationCollector.MergedTopologyWithLocal | extensions/federation/export.go:57-201 | merging report by report exports all their facts and the local ones, policy knowledge being the disjunction |
| FederationExport.NodesPoliciesExportedIff | extensions/federation/export.go:104-118 | the exported policies are exactly those some node's last report or the master states, normalised, iff keys tell these apart |
| FederationExport.NodesHostsExported | extensions/federation/export.go:57-150 | a host is exported iff some node's last report or the master has a fact about it |
| FederationExport.NodesFactsExported | extensions/federation/export.go:62-97 | its addresses, subnets, flags and directed facts are those these facts give it |
| FederationExport.NodesDirectedCounted | extensions/federation/export.go:87-88 | each directed fact as often as they state it together |
| FederationExport.KnownWhenSaid | extensions/federation/export.go:57-123 | policies are known iff some node or the master says so |
| FederationCollector.ExportNeedsLastReportsOnly | extensions/federation/collector.go:17-18 | two histories in which each node's last words agree give the same export |
| FederationCollector.InterleavingIrrelevant | extensions/federation/collector.go:45-86 | interleaving the nodes' report streams differently changes nothing |
| FederationCollector.ZoneFollowsNodeOrder | extensions/federation/export.go:82-84 | for every history, without a local zone, the exported zone is the one given by the node of greatest id whose last report gives one |
| FederationCollector.LocalZoneWins | extensions/federation/export.go:111-113 | a zone among the local facts overrides every node |
| FederationCollector.ScoreFollowsNodeOrder | extensions/federation/export.go:64-79 | for every history the merged score is the one reported by the node of smallest id that mentions the host |
| FederationCollector.NodeZoneExportedIff | extensions/federation/merge.go:44-45 | for every history a node's zone, be it the latest reporter or not, is exported iff the node of greatest id gives the same; where all differ, iff no node of greater id gives any |
| FederationCollector.LaterReportLoses | extensions/federation/merge.go:44-45 | node "b" reports a zone and then node "a" another: the export keeps the first |
| ProcRpc.RunChild | extensions/federation/proc_child.go:47-81 | the loop reads until input ends or a shutdown succeeds and writes the transcript of what it read |
| ProcRpc.ChildAnswers | extensions/federation/proc_child.go:52-76 | after any lines, a request is handed to the handler, the state is the handler's, the one reply line tells the handler's outcome under the request's id, and a done shutdown ends the loop |
| ProcRpc.ChildRefuses | extensions/federation/proc_child.go:56-61 | a line that does not parse is answered under id 0 and changes nothing |
| ProcRpc.OneReplyPerLine | extensions/federation/proc_child.go:52-76 | one reply per line that is not blank, in order, each made in the state the earlier lines left |
| ProcRpc.RunKeepsSync | extensions/federation/proc_proxy.go:46-111 | in every run a running client between calls faces empty pipes, and during a call either the request or its reply |
| ProcRpc.RequestInFlight | extensions/federation/proc_proxy.go:52-64 | in every run the n-th call tried carries the number n, and the request in flight is the last one tried |
| ProcRpc.ReplyMatchesRequest | extensions/federation/proc_proxy.go:46-103 | the reply about to be decoded is the child's reply to the request in flight, whatever failed before |
| ProcRpc.IdsAgreeWhenWritesAreWhole | extensions/federation/proc_proxy.go:52-103 | with all-or-nothing writes the reply carries the request's id though neither side compares |
| ProcRpc.NothingRunsUnanswered | extensions/federation/proc_proxy.go:46-103 | between calls the child has acted on exactly the requests whose replies were read |
| ProcRpc.GivenUpForGood | extensions/federation/proc_proxy.go:105-111 | after a timeout or read error nothing is written, read or acted on again |
| ProcRpc.ProcClient.Call | extensions/federation/proc_proxy.go:46-103 | the result, id counter and running flag of a call for every fate of its write and its read; with nothing torn the result is what the handler answered |
| ProcRpc.ProcClient.Close | extensions/federation/proc_proxy.go:113-121 | afterwards the child is down and the client stopped, and when the wait is for something else to end the child |
| FailTracker.Tracker.UpdateFailTracker | internal/assessor/assessor.go:999-1018 | after every assessment each host's record gives, for every check, the start of its current failing streak and nothing else |
| FailTracker.Tracker.BuildNodeState | internal/assessor/assessor.go:1020-1049 | the failed checks in order, each with its recorded time or 0 |
| FailTracker.FailuresSay | internal/assessor/assessor.go:1020-1049 | exactly the failed checks, in order, each with its own delta, confidence and recorded time or 0 |
| FailTracker.Tracker.ApplyPrism | internal/assessor/assessor.go:923-931 | updating first makes every failed check carry its streak's start unless the result later reports it passed |
| FailTracker.FailingSinceUnique | internal/assessor/assessor.go:1009-1017 | a check's history determines its record |
| FailTracker.OneMoreCheck | internal/assessor/assessor.go:1009-1017 | one result extends, starts or ends exactly its own check's streak |
| FailTracker.TrackedIff | internal/assessor/assessor.go:1031-1038 | a failed check is on record iff its last appearance in the result is not a pass |
| FailTracker.DistinctIdsAlwaysTracked | internal/assessor/assessor.go:1031-1038 | with distinct ids no failed check falls back to time 0 |
| FailTracker.RepeatedIdFallsBack | internal/assessor/assessor.go:1031-1038 | a result that reports one check failed and then passed makes it fall back |

## Left out

- IEEE-754 rounding inside formulas: numbers are exact reals.
- Scoring.AcceptanceMonotone: gives a sufficient condition for one pair of inputs under an enabled policy. The exact condition on the policy is `AcceptanceMonotoneIff`, that on one check's spread `SpreadOrderIff`; between two given inputs spreads of different checks can offset each other.
- PrismCore.AddedFailureLowersScoreWhen: states one direction in terms of debts and counts; the exact condition is `CollapseDropsIff` for collapse, `FreshFailureRaisesScoreIff` for the score and failures without debt, and `AddedFailureRaisesScoreIff` for the score and all failures, in terms of the two penalties.
- PrismCore.ComputeDynamicScore: requires a nonzero debt normalisation, where the code would divide by zero into an infinity.
- EdgeFactors.EdgeProductMonotone: sufficient for the product; the condition is exact for the contributions of the single factors (`ContributionsFallIff`), since another factor with the same trigger can hide a rise in their product.
- Confidence.EffectiveConfidenceMonotone: compares positive stated confidences only, because a non-positive one stands for the default.
- FederationCollector.Collector.Nodes: copies of parameter and zone tables are values, so aliasing of those tables is not modelled.
- FactMerge.Merger.MergeHost: host records are map values replaced whole, where the code updates them through pointers held by the same map.
- ProcRpc.ProcClient.Call: the goroutine that reads is folded into the fate of the call; lines longer than the child's buffer count as the child dying.
- FailTracker.Tracker.UpdateFailTracker: the lock around the update is not modelled; assessments of one host are taken one at a time.
- Injected hooks (domain adjustment, edge-factor strategy) are pure functions here; score monotonicity is stated for the default ones.
- Whether a pending command's signature verifies is a choice of the environment.
- The vault's cryptography: decryption succeeds exactly with the right password.
- Trend labels and `PredictFuture`: thin wrappers around the forecast.
- Risk velocity and report assembly: single expressions with easy claims.
- The layered topology graph, reachability verdicts and path checks over it.
- HTTP, JSON, gRPC, TLS, process spawning, logging, rendering, mutexes.
- Attack-technique tables, delegation rules, detection rules, plug-in registries and package reporting.
- Times are unbounded integers, where the code uses 64-bit seconds.
