# Decision-market bandit environment, in Dafny

This project models the environment of a multi-agent bandit system in which
agents learn by trading in decision markets. The system lives in
`Environment.py` and has these parts:

- **Buckets.** Buckets of hidden colour emit red and blue balls. A batch of
  draws becomes a count vector of three slots per bucket.
- **Bayesian update.** A belief can be updated one ball at a time
  (`NaiveBayesOneIter`, `analytical_best_report*`). It can also be updated in
  log-odds space by a sparse matrix product (`BayesianUpdateMat`).
- **Prediction markets.** Each keeps two append-only report histories and a
  current prediction. It resolves them into per-report score differences
  under the logarithmic or the quadratic scoring rule.
- **Decision markets.** Each holds one prediction market per option and picks
  the market that pays. The deterministic rule picks the first arg-max. The
  stochastic rule draws a rank in a stable descending sort and pays an
  inverse-propensity-weighted reward.
- **Encodings.** `signal_encode` builds a fixed six-slot signal. The one-hot
  colour encoding converts between colour names and vectors.
- **Explorer.** A Gaussian exploration policy whose standard deviation is
  learned through a weight matrix.

## How the model is built

- Probabilities are Dafny `real`, which is exact. Nothing here says anything
  about floating point.
- Every random draw is an input:
  - a bucket's colour and the buckets and balls of a batch;
  - MultiBuckets' random index;
  - the rank that the stochastic rule's `generator.choice` draws;
  - the standard-normal sample behind `np.random.normal`.
- `expit`, `log` and `exp` are function-typed parameters (`real -> real`)
  with no properties. The one lemma that needs `log` to behave like a
  logarithm asks for that at the two points it uses.
- An exception the source raises becomes an `Err` of a `Result`:
  - the range assertions of `Bucket`;
  - `randint` with a non-positive bucket count;
  - the broadcast `ValueError` (a prior that does not fit two slots), the
    `KeyError` and the `IndexError` of `signal_encode`;
  - the ambiguous truth value of the std clamp.

  Every other exception the source can raise is excluded by a precondition.
  Each one is listed under "## Left out".
- Closed enums make the `raise ValueError` branches of `resolve`,
  `DecisionMarket.resolve` and `Bucket.signal` unreachable. The model has no
  such branch.
- Objects whose fields the source updates are classes:
  - `PredictionMarket` (its histories are `seq` fields that `Report` extends);
  - `DecisionMarket`;
  - `Explorer` (its weight matrix is an `array2`).
- Buckets are never changed after construction, so they are datatypes.
- Loops in the source are loops here, each proved against a specification
  function: the score loops, `MultiBuckets.signal` over an array, and the
  market and bucket construction loops.

Modules, one file each:

| file | module |
|---|---|
| `enums.dfy` | `Enums` |
| `linear_algebra.dfy` | `LinearAlgebra` (sums, vector-matrix product) |
| `bayes.dfy` | `Bayes` |
| `prediction_market.dfy` | `PredictionMarkets` |
| `ranking.dfy` | `Ranking` (argmax, stable descending sort, inverse-propensity weighting) |
| `buckets.dfy` | `Buckets` |
| `encoding.dfy` | `Encoding` |
| `decision_market.dfy` | `DecisionMarkets` |
| `explorer.dfy` | `Explorers` |

### Behaviour worth noting

1. **No validation in report.** `PredictionMarket.report`
   (Environment.py:79-83) accepts any report, including beliefs that do not
   sum to 1. It keeps no single previous prediction. It appends to two
   histories, one of sampled reports and one of mean reports, and sets the
   current prediction to the mean report.
2. **Expected payoff of the stochastic rule.** The rule pays the drawn
   rank's market its scores divided by that rank's probability. The
   expected payment over the draw is therefore the total score of every
   market the probability list reaches (`Ranking.InversePropensityUnbiased`).
   With one probability per market, that is the total over all markets. It
   is not the reward the deterministic rule's top option would earn.
3. **Rank probabilities.** `preferred_colour_pr_list` is zipped with the
   sorted market list. So entry r is the probability of the market ranked r,
   not of option r.
4. **Zip truncation.** A probability list shorter than the market list is
   accepted. Only the top-ranked markets it reaches can be drawn.
5. **Scale of the histories.** Both resolve rules apply `expit` to every
   history entry, including the first. That first entry is the prior the
   market was built with, which the training loop passes as a probability.
   The model applies `expit` to every entry, as the code does, and takes no
   view on which scale is meant.

## Model

| member | source | states |
|---|---|---|
| `Enums.Ball.Value` | Environment.py:9-11 | RED is 0 and BLUE is 1, and the value picks out the colour. |
| `Enums.BucketColour.Value` | Environment.py:14-16 | The bucket colour's value is 0 exactly for RED; it is the materialised outcome index used at resolution. |
| `Bayes.PosteriorRedUrn` | Environment.py:264-294 | The joint-distribution posterior of both analytical_best_report_ru_* functions satisfies Bayes' theorem: posterior times evidence is prior times likelihood. Its further properties are the lemmas below. |
| `Bayes.PosteriorIsProbability` | Environment.py:264-294 | With a prior in [0, 1], nonnegative likelihoods and nonzero evidence, the posterior lies in [0, 1]. |
| `Bayes.PosteriorMovesWithEvidence` | Environment.py:264-294 | A ball likelier under the red urn raises the posterior above the prior, a ball likelier under the blue urn lowers it, and an uninformative ball leaves it unchanged. |
| `Bayes.ExpectedPosteriorIsPrior` | Environment.py:345-352 | Averaged over the red and blue ball with their evidence probabilities, analytical_best_report returns the prior (conservation of expected evidence). |
| `Bayes.PosteriorOdds` | Environment.py:264-294 | In odds form one update multiplies the prior odds by the likelihood ratio; the posterior stays below 1. |
| `Bayes.AnalyticalBestReport` | Environment.py:345-352 | For the observed ball the report satisfies Bayes' theorem: report times evidence is the bucket's prior times the ball's likelihood under the red urn. ExpectedPosteriorIsPrior, PosteriorOdds and BatchedUpdateAgreesWithOneStep state more. |
| `Bayes.AnalyticalBestReportExample` | Environment.py:345-352 | Prior 3/4 with likelihoods 2/3 and 1/3 gives 6/7 after a red ball and 3/5 after a blue ball. |
| `Bayes.NaiveBayesOneIter` | Environment.py:48-57 | The posterior has the prior's length, every entry other than `bucket_no` keeps its prior value, and entry `bucket_no` equals analytical_best_report for the same ball, prior and likelihoods. |
| `Bayes.DotSparseColumn` | Environment.py:59-68 | Column k of the sparse matrix meets the signal only in rows 3k, 3k+1 and 3k+2. |
| `Bayes.BuildTheta` | Environment.py:60-66 | The matrix is 3n by n; cell (i, j) is log p - log q, log(1-p) - log(1-q) or 1 when i is 3j, 3j+1 or 3j+2, and 0 elsewhere. |
| `Bayes.BayesianUpdateMat` | Environment.py:59-68 | The result has length n; entry k is s[3k] (log p - log q) + s[3k+1] (log(1-p) - log(1-q)) + s[3k+2], so it depends only on slots 3k to 3k+2. |
| `Bayes.BatchedUpdateAgreesWithOneStep` | Environment.py:48-68 | For one ball with the prior's logit in the third slot, the entry BayesianUpdateMat computes is the logit of the posterior analytical_best_report gives. |
| `PredictionMarkets.ScoreDifferences` | Environment.py:85-106 | The score list of a market has one entry per report after the prior. |
| `PredictionMarkets.PredictionMarket.constructor` | Environment.py:72-76 | Both histories start as [prior] and the current prediction is the prior. |
| `PredictionMarkets.PredictionMarket.Report` | Environment.py:79-83 | Exactly one element is appended to each history and all earlier ones are kept; the histories stay the same length; the current prediction becomes the mean report. |
| `PredictionMarkets.PredictionMarket.LogResolve` | Environment.py:85-94 | Score i is log of the probability pair of sampled report i+1 minus log of the pair of mean report i, at the materialised index. |
| `PredictionMarkets.PredictionMarket.BrierResolve` | Environment.py:96-106 | It returns len(history) - 1 scores; score i is the quadratic score of sampled report i+1 minus that of mean report i. |
| `PredictionMarkets.PredictionMarket.Resolve` | Environment.py:108-114 | LOG gives log_resolve's list and QUADRATIC gives brier_resolve's list; no error case is reachable. |
| `PredictionMarkets.ScoresTelescope` | Environment.py:85-106 | When the sampled and mean histories coincide, the scores add up to the score of the last report minus that of the prior. |
| `PredictionMarkets.QuadraticScore` | Environment.py:103-104 | The Brier score is one half minus the squared error (1 - t[outcome])^2 of the probability given to the outcome that happened. |
| `PredictionMarkets.QuadraticScoreExample` | Environment.py:96-106 | The pair [0.8, 0.2] after [0.5, 0.5] at outcome 0 scores 0.21. |
| `PredictionMarkets.QuadraticIsProper` | Environment.py:96-106 | The quadratic rule is strictly proper: the true probability beats any other report in expectation, by exactly the squared difference. |
| `Ranking.FirstArgmax` | Environment.py:134 | np.argmax: a position of the maximum, with every earlier entry strictly smaller. |
| `Ranking.Insert` | Environment.py:149-150 | One insertion step of the stable sort adds exactly one position. |
| `Ranking.InsertElements` | Environment.py:149-150 | An insertion adds exactly the inserted position to the multiset of the order. |
| `Ranking.InsertSorted` | Environment.py:149-150 | Inserting a new in-range position into a descending, stable order keeps it descending and stable. |
| `Ranking.SortDescending` | Environment.py:149-150 | Sorting the first n markets gives n positions, all below n. |
| `Ranking.SortDescendingPermutes` | Environment.py:149-150 | The sorted order of the first n markets is a permutation of 0 .. n-1. |
| `Ranking.SortDescendingSorted` | Environment.py:149-150 | The sorted order lists markets by descending prediction, ties in their original order. |
| `Ranking.SortedMarketOrder` | Environment.py:149-150 | The sorted market list has one entry per market, each a valid position. |
| `Ranking.SortedMarketOrderIsStableDescending` | Environment.py:149-150 | sorted(..., reverse=True) by current prediction is a stable, descending permutation of the markets. |
| `Ranking.SortedMarketOrderContains` | Environment.py:149-152 | Every market appears at some rank. |
| `Ranking.TopRankIsArgmax` | Environment.py:132-150 | The top-ranked market of the stochastic rule is the deterministic rule's argmax. |
| `Ranking.SumGatherInsert` | Environment.py:149-150 | Reading scores in an order that has one more position inserted adds exactly that position's score. |
| `Ranking.SumGatherSortDescending` | Environment.py:149-150 | Reading the first n scores in sorted order leaves their sum unchanged. |
| `Ranking.SumInSortedOrder` | Environment.py:149-150 | Reading the market scores in sorted-market order does not change their total. |
| `Ranking.InversePropensityUnbiased` | Environment.py:146-163 | Take a probability list no longer than the market list, zipped with the top of the sorted order, where every rank has positive probability. Then the expected inverse-propensity-weighted payment over the rank draw is the total score of the markets the list reaches, whatever the ranking and the probabilities. With one probability per market it is the total score of all markets. |
| `Buckets.FirstRangeError` | Environment.py:175-180 | No check fails exactly when all three parameters lie in [0, 1]; the checks are made in source order, prior first. |
| `Buckets.NewBucket` | Environment.py:174-186 | The constructor succeeds exactly when all parameters are probabilities; it then stores them with the drawn colour; otherwise it raises the first failing check. |
| `Buckets.BallDistribution` | Environment.py:188-195 | The ball is drawn from (p, 1-p): its two weights sum to 1, and p is the red-ball probability of the bucket's colour. |
| `Buckets.BallDistributionIsProbability` | Environment.py:188-195 | A valid bucket draws its ball from (p, 1-p), with p the red-ball probability of its colour; the pair is a probability distribution. |
| `Buckets.NewMultiBuckets` | Environment.py:199-206 | A non-positive bucket count raises. Otherwise there is one bucket per pair of zip(range(n), priors), bucket k numbered k; or the first invalid bucket is reported, with every earlier one valid. |
| `Buckets.Signal` | Environment.py:208-226 | The vector has 3n slots; each slot counts the draws landing at 3 no + ball value; the slots add up to the batch size; every slot 3k+2 stays 0. |
| `Buckets.DrawsNumbered` | Environment.py:212-216 | Every drawn bucket has a number below the bucket count, so each increment is in range. |
| `Buckets.TallyTotal` | Environment.py:215-216 | Each draw is counted exactly once across the 3n slots. |
| `Buckets.TallyMarkerSlot` | Environment.py:216 | No draw lands in a slot 3k+2. |
| `Encoding.ColourValue` | Environment.py:366 | Only 'red' (0) and 'blue' (1) are keys of the colour map. |
| `Encoding.WrapIndex` | Environment.py:369 | numpy's indexing of a 6-slot row: -6 .. 5 are valid, and negatives count from the end. |
| `Encoding.SignalEncode` | Environment.py:365-371 | It succeeds exactly when the squeezed prior broadcasts to two slots, the colour is known and the index is in range. Slots 2 and 5 then hold the prior, one is added at 3 bucket_no + colour value, and all else is 0. A bad prior shape is reported first. |
| `Encoding.SignalEncodeIsOneDrawSignal` | Environment.py:365-371 | For bucket 0 or 1, the red and blue slots of signal_encode are MultiBuckets.signal's counts for that single draw. |
| `Encoding.OneHotEncode` | Environment.py:374-378 | 'red' encodes to [1, 0] and anything else to [0, 1]. |
| `Encoding.OneHotDecode` | Environment.py:381-385 | [1, 0] decodes to 'red' and anything else to 'blue'. |
| `Encoding.OneHotRoundTrip` | Environment.py:374-385 | Decoding an encoded name gives it back exactly when it is 'red' or 'blue'. |
| `Encoding.OneHotRoundTripVector` | Environment.py:374-385 | Encoding a decoded vector gives it back exactly when it is one of the two one-hot vectors. |
| `DecisionMarkets.DecisionMarket.constructor` | Environment.py:119-125 | One fresh (newly allocated) market per pair of zip(range(action_num), priors), numbered by position, each starting at its prior; the other fields as given. |
| `DecisionMarkets.DeterministicRoundExample` | Environment.py:119-144 | One whole round, from construction to payment: two new markets are built from priors 0.75 and 0.25. They take the reports 0.6 and 0.3. The deterministic rule then pays market 0 one score. |
| `DecisionMarkets.DecisionMarket.ReadCurrentPred` | Environment.py:167-170 | The current prediction of each market, in list order. |
| `DecisionMarkets.DecisionMarket.Report` | Environment.py:127-129 | zip stops at the shortest input. Each market in that prefix records its pair of reports; the other markets are unchanged. |
| `DecisionMarkets.DecisionMarket.Resolve` | Environment.py:131-165 | Deterministic rule, or a single market: the index is the first argmax of the current predictions, and the reward is that market's resolve at its bucket's colour. Otherwise the index is the market at the drawn rank of the stable descending sort, and the reward is its resolve divided by the rank's probability. The index is always a valid market and bucket. |
| `Explorers.ClampAsWritten` | Environment.py:252-253 | The clamp as written raises for two or more actions; for one action it replaces a std below min_std by min_std. |
| `Explorers.ClampStd` | Environment.py:252-253 | The intended clamp: every std is at least min_std and at least its old value, and each is either its old value or min_std. |
| `Explorers.ClampAgreesForOneAction` | Environment.py:252-253 | With one action the clamp as written and the elementwise clamp agree. |
| `Explorers.ClampAsWrittenFailsForTwoActions` | Environment.py:252-253 | With stds [0.1, 0.5] and min_std 0.3 the clamp as written raises, while the intended clamp gives [0.3, 0.5]. |
| `Explorers.ClampStdIdempotent` | Environment.py:252-253 | Clamping twice is clamping once, and stds already at least min_std are left alone. |
| `Explorers.DecayedRate` | Environment.py:246 | The rate times (1 + decay epoch) is the initial rate, and at epoch 0 the rate is the initial rate. |
| `Explorers.DecayedRateDecreases` | Environment.py:245-247 | With a positive initial rate and decay, the rate stays positive and strictly falls from epoch to epoch. |
| `Explorers.GaussianSample` | Environment.py:254 | Sample i is mean i + std i times standard-normal draw i. Where std i is nonzero, standardising the sample by its own mean and std gives back draw i. |
| `Explorers.GradFactor` | Environment.py:259-260 | The factor times std^2 is the reward times the excess of the squared deviation (h - mean)^2 over std^2. GradFactorSign gives its sign. |
| `Explorers.GradFactorSign` | Environment.py:257-261 | With a positive reward the std gradient factor is positive exactly when the sample lies more than one std from the mean, and zero exactly at one std. |
| `Explorers.Explorer.constructor` | Environment.py:230-239 | Zero means, unit stds and a zero (features times actions) by actions weight matrix; the rate starts at its initial value; no sample yet; defaults as in the source. |
| `Explorers.Explorer.SetParameters` | Environment.py:241-243 | The mean becomes the given one and every std the fixed std; nothing else changes. |
| `Explorers.Explorer.LearningRateDecay` | Environment.py:245-247 | It sets and returns init / (1 + decay epoch). |
| `Explorers.Explorer.Report` | Environment.py:249-255 | When learning, std is the clamped exp(signal theta_std). Otherwise std is unchanged and the signal is not read. The sample h is mean + std noise, stored and returned. The mean and the rate are unchanged. |
| `Explorers.Explorer.Update` | Environment.py:257-261 | Not learning: no weight changes, for any arguments. Learning: every weight grows by rate times signal feature i times reward j ((h_j - mean_j)^2 / std_j^2 - 1). |

## Left out

- `main.py` is not part of this model. It is training-loop orchestration with
  progress bars and a policy-gradient agent whose code is not available.
- Plotting and statistics helpers are not modelled (pandas, scipy and
  matplotlib): `gradients_box_plot`, `gradients_box_subplot`,
  `no_outlier_array`, `no_outlier_df`.
- The mesh-grid expected-reward functions are not modelled: the
  `expected_*_reward*` and `dm_expected_*` functions. They are built on `log`
  over grids and are not part of the environment's state.
- The enums `TrainingPlatform`, `Algorithm`, the initialisation-method enum
  and `ReportOrder` have no behaviour in the core and are not modelled.
- `expit`, `log` and `exp` are uninterpreted parameters. The log-resolve
  scores are therefore stated in terms of `ln`, not evaluated. No domain
  conditions are placed on them, so log of 0 and the like are not modelled.
- Floating-point rounding is not modelled. Neither are `np.asscalar`, or the
  numpy failure when `np.squeeze` turns a single market's report into a 0-d
  array that zip cannot iterate.
- Every random draw is an input, and so the draws' distributions are not
  modelled. The inputs are:
  - the bucket colour from `np.random.choice`;
  - the bucket index from `np.random.randint`;
  - the batch picks and balls of `MultiBuckets.signal` (its unused `t`
    argument is dropped);
  - the rank that `Generator(PCG64()).choice` draws;
  - the standard-normal noise of `np.random.normal`.
  The rank draw stands in for `choice`, and the model requires:
  - the probability list is no longer than the market list (zip truncates
    to the shorter one);
  - its entries are nonnegative and sum to 1;
  - the drawn rank is one of its positions and has positive probability.

  A list longer than the market list, a negative entry, or a sum other
  than 1 makes numpy raise, and that path is not modelled.
- `PredictionMarkets.PredictionMarket.LogResolve`,
  `PredictionMarkets.PredictionMarket.BrierResolve` and
  `PredictionMarkets.PredictionMarket.Resolve`: require the materialised
  index to be 0 or 1. Python reads -1 and -2 as counting from the end of the
  pair, and that is not modelled. An index of 2 or more raises IndexError.
  Inside a decision market the index is always a bucket colour's value, 0
  or 1.
- `Buckets.Signal`: its draws must come from the bucket list, so a batch of
  one or more draws needs at least one bucket. With no buckets,
  `np.random.choice` raises, and that is not modelled.
- `DecisionMarkets.DecisionMarket.Resolve`: requires `buckets` to reach the
  chosen index. A shorter list raises `IndexError` in the source, and that
  is not modelled.
- The `agent_num` local of `DecisionMarket.resolve` and the `index` field of
  MultiBuckets are computed but never used. They are carried or left out
  accordingly.
- `Explorers.Explorer.Update`: when learning, requires every std to be
  nonzero. numpy would divide by zero and produce inf or nan. After a
  learning report every std is at least `min_std`.
- `Explorers.Explorer.Update`: reads `np.matmul(signal_array, ...)` as the
  outer product of the signal features with the per-action factors. That is
  the only shape under which the product has the shape of `theta_std`. The
  training loop passes the same array to `report` and to `update`, but:
  - `report`'s matmul needs it as a row of F·A features (F features times A
    actions);
  - `update`'s matmul needs it as a column of them.

  So with learning on, one of the two raises unless F·A is 1. The model
  therefore departs from the code here: it takes `report`'s signal as the
  row and `update`'s as the column. Learning is off in every training run
  the repository sets up.
- `Explorers.Explorer.Update`: when learning, requires the stored sample and
  the reward to have one entry per action. An update before any report sees
  the empty `h_array` and raises a broadcast error for two or more actions.
  numpy would also broadcast a one-element reward over all actions. Neither
  of these is modelled.
- `Explorers.Explorer.Report`: requires every std to be nonnegative when not
  learning. `np.random.normal` raises for a negative scale, which a negative
  `fixed_std` in `set_parameters` would give. When learning, the std is the
  clamp of `exp` of the signal. It is nonnegative whenever `exp` is positive
  or `min_std` is nonnegative. The model states no positivity of `exp`, so
  it does not exclude a negative scale there.
- `Bayes.NaiveBayesOneIter` and `Bayes.AnalyticalBestReport`: require
  `bucket_no` to be a position of the prior, as a natural number. Python
  reads a negative `bucket_no` from `-len` to `-1` as counting from the end,
  and updates that entry. That wrap is not modelled. A `bucket_no` of
  `len(prior)` or more raises IndexError.
- `Bayes.NaiveBayesOneIter` and `Bayes.AnalyticalBestReport`: require the
  evidence of the observed ball to be nonzero. With zero evidence numpy
  divides 0 by 0 and gives nan when the prior entry is a numpy float.
- `Bayes.PosteriorRedUrn`: requires nonzero evidence. With plain Python
  floats, `analytical_best_report_ru_rs` and `analytical_best_report_ru_bs`
  raise ZeroDivisionError instead, and that error is not modelled.
- `Explorers.Explorer.LearningRateDecay`: requires 1 + decay·epoch to be
  nonzero. Python raises ZeroDivisionError there.
- `Bayes.BayesianUpdateMat`: requires the signal length to be a multiple of
  3. Otherwise numpy's matmul raises a shape error.
- `Bayes.BayesianUpdateMat`: takes one signal row. The source's matmul also
  accepts a batch of rows of width 3n. Its `np.squeeze` turns a one-action
  result into a scalar. Neither the batch form nor the scalar is modelled.
- `Explorers.Explorer.SetParameters`: requires one mean per action. The
  source stores a mean of any shape. `report` then broadcasts a one-element
  mean over every action, and raises for other mismatched shapes. Neither is
  modelled.
- `Explorers.Explorer.constructor`: takes the feature and action counts as
  natural numbers. The "negative dimensions" ValueError that `np.zeros`
  raises for a negative count is therefore not modelled.
- `DecisionMarkets.DecisionMarket.Resolve`: requires at least one market.
  With none, `np.argmax` of an empty list and `choice` of an empty
  population both raise.
- `DecisionMarkets.DecisionMarket.Resolve`, stochastic rule: the payment is
  not modelled when the drawn rank has probability zero, since such a rank
  is never drawn.
- `Explorers.Explorer.Report`: the model uses the elementwise clamp. The
  clamp as written only works for one action (see Findings).
- `Explorers.ClampAsWritten`: for zero actions it follows numpy versions in
  which an empty array tests false. Newer numpy raises there too.
- `Bayes.BatchedUpdateAgreesWithOneStep`: asks for the logarithm laws at the
  two points used, and covers a one-ball signal. It does not cover batches
  of several balls.

## Findings

| source | as written | input that shows it | evidently intended | confidence | as-written member | corrected member |
|---|---|---|---|---|---|---|
| Environment.py:252-253 | `if self.std_array < self.min_std: self.std_array = self.min_std` tests the truth value of a 1-by-n array and replaces the whole array by a scalar | two actions with stds [0.1, 0.5] and min_std 0.3: numpy raises "truth value of an array with more than one element is ambiguous" | raise each std below min_std to min_std, elementwise (np.maximum) | not executed | `Explorers.ClampAsWritten`, `Explorers.ClampAsWrittenFailsForTwoActions` | `Explorers.ClampStd`, used by `Explorers.Explorer.Report`; `Explorers.ClampAgreesForOneAction` shows the two agree for one action |
