# Portfolio engine and sentiment tracker: a verified Dafny model

This project models the hand-written logic of two Python back ends in Dafny.

- **Portfolio engine** (`backend/main.py`). It checks the requested asset universe and picks solver settings from the strategy name. After the Hierarchical Risk Parity (HRP) solver answers, it post-processes the weights. When `force_min_weight` is set and the surplus covers the deficit, it lifts every weight below 0.05 to 0.05. For the aggressive strategy it applies one pass of a 0.35 cap. Then it normalises. When HRP raises it falls back to mean-variance. Along the way it records the cluster order. It also labels the market regime from a distance score and computes the risk-contribution shares and the diversification ratio.
- **Bitcoin sentiment tracker** (`bitcoin-sentiment-tracker-demo/backend/app.py`). It gathers a bounded number of feed entries into cleaned articles. It turns them into the context lines sent to a language model. It extracts the "Overall Sentiment" word from the answer with a regular expression and maps that word to a score.

Arithmetic is exact (`real`), so every sum-to-one or bound property is stated before the source's display rounding. Solvers, feeds and the language model are not modelled as code. Each becomes a function parameter or an input sequence.

Module layout:

| file | module | source part |
|---|---|---|
| `common.dfy` | `Common` | `Option` and `Result` |
| `numeric.dfy` | `Numeric` | sums, element-wise division, scalar bounds |
| `strategy.dfy` | `Strategy` | the strategy tables and the requests sent to the solvers |
| `constraints.dfy` | `Constraints` | the minimum step, the cap step and normalisation, as in-place array methods proved against specification functions |
| `allocation.dfy` | `Allocation` | `PortfolioArchitect` as a class with the `clusterOrder` field; the HRP builder, the mean-variance builder and the cascade |
| `universe.dfy` | `Universe` | `DataManager.__init__` without the download; Python string ordering |
| `regime.dfy` | `Regime` | the `get_status` thresholds |
| `risk.dfy` | `Risk` | `calculate_risk_contribution` and `calculate_diversification_ratio` |
| `text.dfy` | `Text` | ASCII `\s`, `\w`, `str.lower`, `str.strip` |
| `sentiment.dfy` | `Sentiment` | `parse_overall_sentiment` as a scanner proved equal to the pattern; `map_sentiment_to_score` |
| `articles.dfy` | `Articles` | `fetch_articles` over parsed entries, the context lines, the sources, `get_sentiment` |

Where the design description and the code disagree, the model follows the code:

- The maximum-weight cap is a single pass. `CapStepSinglePass` shows that a weight can still end above 0.35.
- When the surplus is below the deficit, the minimum step does nothing at all. It does not make a partial transfer.
- The regime score is not clamped, and there is no fallback status when the score fails to compute.
- The only cascade is HRP, then mean-variance. There is no third optimiser.
- `DataManager` counts the tickers before removing duplicates. So `["SPY", "SPY"]` is accepted and leaves a single asset (`CountPrecedesDeduplication`).

Each weight dictionary is a sequence of asset/weight rows in the solver's order. The keys never change; a step only rewrites the values, held in an `array<real>`.

## Model

| member | source | states |
|---|---|---|
| Strategy.HrpRiskMeasure | backend/main.py:156-161 | the HRP risk measure is CVaR exactly for safety_first; it is variance for the other strategies and for an unknown name |
| Strategy.HrpLinkage | backend/main.py:166-171 | single linkage exactly for aggressive_growth; Ward for every other name, including unknown ones |
| Strategy.MvRiskMeasure | backend/main.py:255-260 | the mean-variance risk measure is variance for every name |
| Strategy.MvObjectiveFor | backend/main.py:262-267 | MinRisk iff safety_first, MaxRet iff aggressive_growth, Sharpe iff neither (each in both directions) |
| Strategy.LowerBound | backend/main.py:247 | the lower bound is 0.05 iff the floor is forced, otherwise 0 |
| Strategy.UpperBound | backend/main.py:248 | the upper bound is 0.35 iff the strategy is aggressive_growth, otherwise 1.0 |
| Strategy.HrpRequestFor | backend/main.py:156-181 | the HRP call carries the table's risk measure and linkage and a risk-free rate of 0.04 |
| Strategy.MvRequestFor | backend/main.py:247-269 | the mean-variance call carries the two bounds, variance, the table's objective and a risk-free rate of 0.04 |
| Strategy.UnknownObjectiveDefaults | backend/main.py:156-267 | an unknown strategy gets variance / Ward for HRP and variance / Sharpe with bounds [0 or 0.05, 1] for mean-variance |
| Constraints.TallyFloor | backend/main.py:193-198 | reports whether some weight is below 0.05, and the total deficit and total surplus against 0.05, all read from the untouched weights |
| Constraints.LiftToFloor | backend/main.py:202-203 | in place: every weight below 0.05 becomes 0.05, the others are unchanged |
| Constraints.CutSurplus | backend/main.py:204-206 | in place: every asset that was at or above 0.05 gives up the reduction factor's share of its surplus; the raised ones stay at 0.05 |
| Constraints.EnforceMinWeight | backend/main.py:190-206 | in place: the weights become `MinStep` of the old weights |
| Constraints.ReductionFactorBounds | backend/main.py:204 | with a positive deficit covered by the surplus, the factor lies in [0, 1] and factor × surplus = deficit |
| Constraints.MinStepSuccess | backend/main.py:196-206 | when the step applies, every weight below 0.05 ends exactly at 0.05 and every other weight ends in [0.05, its old value] |
| Constraints.MinStepConserves | backend/main.py:197-206 | the step never changes the total weight: the cuts add up to the deficit |
| Constraints.MinStepChangesIff | backend/main.py:190-200 | the step changes something iff the floor is forced, some weight is below 0.05 and surplus ≥ deficit; otherwise it is the identity |
| Constraints.SurplusMinusDeficit | backend/main.py:197-198 | surplus − deficit = total − n × 0.05 |
| Constraints.MinStepFeasible | backend/main.py:190-206 | weights summing to one over at most twenty assets always end at or above 0.05 when the floor is forced |
| Constraints.ExcessOf | backend/main.py:211 | computes the total excess over 0.35 |
| Constraints.ExcessPositiveIff | backend/main.py:211-212 | the excess is positive iff some weight is above 0.35 |
| Constraints.LowerToCap | backend/main.py:213-215 | in place: every weight above 0.35 becomes 0.35 |
| Constraints.BelowCapOf | backend/main.py:217-219 | computes, from the capped weights, whether some weight is below 0.35 and the total of those weights |
| Constraints.SpreadExcess | backend/main.py:220-222 | in place: every weight below 0.35 gains the excess times its share of the below-cap total |
| Constraints.CapMaxWeight | backend/main.py:209-222 | in place: the weights become `CapStep` of the old weights |
| Constraints.CapStepBounds | backend/main.py:209-222 | for aggressive_growth, a weight at or above 0.35 ends at 0.35, only weights below 0.35 gain, and a non-negative weight below 0.35 never loses |
| Constraints.CapStepTotal | backend/main.py:209-222 | the total is kept when the weights below 0.35 have a positive total; otherwise exactly the excess is lost |
| Constraints.CapStepSkipped | backend/main.py:209 | for any other strategy the step is the identity |
| Constraints.CapStepSinglePass | backend/main.py:209-222 | after one pass 0.6/0.3/0.1 becomes 0.35/0.4875/0.1625, and normalisation keeps it, so a final weight can exceed 0.35 |
| Constraints.Normalize | backend/main.py:225-226 | an empty frame gives an empty result without dividing; a non-empty frame fails iff its total is zero (the division raises); otherwise the result has the same length, sums to one, and each result times the total is the input weight |
| Constraints.NormalizeBounds | backend/main.py:225-226 | non-negative weights with a positive total normalise into [0, 1] |
| Constraints.NormalizeLifts | backend/main.py:225-226 | non-negative weights whose total lies in (0, 1] are never lowered by normalisation |
| Constraints.StepsKeepDistribution | backend/main.py:188-222 | both steps keep non-negative weights non-negative and a positive total positive |
| Constraints.StepsKeepFloor | backend/main.py:209-222 | the cap step keeps weights at or above 0.05 there and never raises the total |
| Constraints.PostProcessDistribution | backend/main.py:188-226 | non-negative solver weights with a positive total come out as one weight per input, each in [0, 1], summing to one |
| Constraints.PostProcessHonoursFloor | backend/main.py:188-226 | with the floor forced, a distribution over at most twenty assets ends with every weight at least 0.05, for any strategy |
| Allocation.PortfolioArchitect.constructor | backend/main.py:126-131 | stores the tickers and the flag, and starts with no cluster order |
| Allocation.PortfolioArchitect.BuildHrp | backend/main.py:146-235 | calls the solver with the strategy's request: a raise gives SolverRaised; `None` or empty weights give HrpEmpty; a zero total gives ZeroTotal; otherwise the min, cap and normalise steps are applied in place, and the order is the probed sort order, else the tickers |
| Allocation.PortfolioArchitect.BuildMeanVariance | backend/main.py:237-283 | calls the solver with the bounds and objective and returns the normalised rows or the error; the cluster order becomes the tickers only on success |
| Allocation.PortfolioArchitect.BuildPortfolio | backend/main.py:133-144 | the result and the new cluster order are those of `Cascade`: HRP first; on any HRP error, the mean-variance outcome |
| Allocation.CascadePrefersHrp | backend/main.py:138-141 | when HRP succeeds its weights are returned and the cluster order becomes its order |
| Allocation.CascadeFallsBack | backend/main.py:142-144 | when HRP fails the mean-variance result is returned; the cluster order becomes the tickers on success and is otherwise unchanged |
| Allocation.CascadeFailsIff | backend/main.py:138-144 | the cascade fails iff both builders fail |
| Allocation.CascadeWeightsAreDistribution | backend/main.py:133-144 | a successful cascade returns a non-empty list of the answering solver's assets, in order, whose weights sum to one |
| Allocation.HrpSucceedsOnDistribution | backend/main.py:183-235 | a non-empty HRP frame of non-negative weights with a positive total never makes HRP fail, and every weight ends in [0, 1] |
| Allocation.HrpHonoursFloor | backend/main.py:186-226 | with the floor forced, an HRP distribution over at most twenty assets ends with every weight ≥ 0.05 |
| Allocation.DisplayOrder | backend/main.py:410 | the shown order is the cluster order when it is a non-empty list, otherwise the weight keys |
| Allocation.DisplayOrderNonEmpty | backend/main.py:410 | once there are weights, the shown order is never empty |
| Allocation.EmptySortOrderShowsKeys | backend/main.py:410 | an HRP sort order that came back empty is replaced by the weight keys |
| Universe.LessTransitive | backend/main.py:81 | Python's string order is transitive |
| Universe.LessTotal | backend/main.py:81 | any two distinct strings are ordered one way or the other |
| Universe.SortedSet | backend/main.py:81 | `sorted(set(...))` is strictly ascending and has exactly the input's elements |
| Universe.StrictlySortedUnique | backend/main.py:81 | two strictly ascending lists with the same elements are equal |
| Universe.TradingDays | backend/main.py:90 | 365 iff a crypto ticker is present, 252 iff not |
| Universe.NewDataManager | backend/main.py:78-90 | fails iff fewer than 2 or more than 10 tickers are requested (duplicates counted); otherwise stores a strictly sorted list of exactly the requested names, and flags crypto iff some name ends in "-USD" |
| Universe.StoredTickersAreSortedSet | backend/main.py:81 | any strictly ascending list of the requested names is the stored one |
| Universe.CountPrecedesDeduplication | backend/main.py:78-81 | `["SPY","SPY"]` gives a one-asset universe with 252 days; eleven names with only two distinct are refused |
| Regime.GetStatus | backend/main.py:111-116 | Calm iff score < 12, Choppy iff 12 ≤ score < 25, Turbulent iff score ≥ 25; Green/Yellow/Red go with the labels; the score is passed through |
| Regime.GetStatusMonotone | backend/main.py:111-116 | a larger score never gives a calmer label |
| Regime.ScoreIsNotClamped | backend/main.py:109-116 | a score of 1000 or more is reported unchanged as Red/Turbulent |
| Risk.EqualShares | backend/main.py:320 | n equal shares, each 1/n, summing to one when n > 0 |
| Risk.DiversificationRatio | backend/main.py:298-310 | 1.0 when the volatility is not positive; otherwise the ratio times the volatility is the weighted sum of the individual volatilities |
| Risk.RawContributionsTotal | backend/main.py:322-329 | with positive volatility, the raw contributions add up to the volatility, so the positive-total branch is the one taken |
| Risk.RiskContribution | backend/main.py:312-335 | one share per asset; the shares of a non-empty portfolio sum to one; with zero volatility every share is 1/n; with positive volatility each share times wᵀCw equals w[i] × (Cw)[i] |
| Risk.VarianceShares | backend/main.py:322-333 | with positive volatility the raw contributions over their total sum to one and are the assets' parts of wᵀCw; the equal-shares fallback for a non-positive total is unreachable |
| Risk.QuadBelowWeightedVolSquared | backend/main.py:304-306 | when each covariance is at most the product of the two volatilities, wᵀCw ≤ (Σ wᵢσᵢ)² for non-negative weights |
| Risk.DiversificationRatioAtLeastOne | backend/main.py:298-310 | under those conditions the diversification ratio is at least one |
| Text.Lower | bitcoin-sentiment-tracker-demo/backend/app.py:94 | same length; each ASCII capital becomes its small letter and every other character is kept |
| Text.LowerIdempotent | bitcoin-sentiment-tracker-demo/backend/app.py:94 | lower-casing twice is lower-casing once |
| Text.Strip | bitcoin-sentiment-tracker-demo/backend/app.py:57 | the result is a slice of the input with only whitespace cut at both ends, and it neither starts nor ends with whitespace |
| Text.StripIdempotent | bitcoin-sentiment-tracker-demo/backend/app.py:57 | stripping twice is stripping once |
| Text.StripAllSpace | bitcoin-sentiment-tracker-demo/backend/app.py:57 | a string of whitespace strips to the empty string |
| Sentiment.Search | bitcoin-sentiment-tracker-demo/backend/app.py:85 | reports the first position at which the scanner matches; none before it matches, and when it finds none, none matches anywhere |
| Sentiment.MatchAtSound | bitcoin-sentiment-tracker-demo/backend/app.py:85 | every scanner match is a decomposition of the pattern, whose group is the maximal word run at its start |
| Sentiment.MatchAtComplete | bitcoin-sentiment-tracker-demo/backend/app.py:85 | every decomposition of the pattern at a position makes the scanner match there, with the same group start and a group at least as long |
| Sentiment.MatchesAtIff | bitcoin-sentiment-tracker-demo/backend/app.py:85 | the pattern matches at a position iff the scanner does |
| Sentiment.ParseOverallSentiment | bitcoin-sentiment-tracker-demo/backend/app.py:78-86 | always returns a non-empty run of word characters |
| Sentiment.ParseWithoutMatch | bitcoin-sentiment-tracker-demo/backend/app.py:86 | with no match anywhere the answer is "Neutral" |
| Sentiment.ParseLeftmostMatch | bitcoin-sentiment-tracker-demo/backend/app.py:85-86 | at the leftmost match the answer is the whole word run where the group starts (greedy `\w+`) |
| Sentiment.SearchFindsFirst | bitcoin-sentiment-tracker-demo/backend/app.py:85 | the search stops at the first matching position |
| Sentiment.MapSentimentToScore | bitcoin-sentiment-tracker-demo/backend/app.py:89-102 | 10 iff the lower-cased word is "bullish", 1 iff it is "bearish", 5 iff it is neither |
| Sentiment.ScoreRange | bitcoin-sentiment-tracker-demo/backend/app.py:89-102 | the score is one of 1, 5 and 10 and does not depend on the word's case |
| Sentiment.NoMatchScoresFive | bitcoin-sentiment-tracker-demo/backend/app.py:86-102 | an answer without a sentiment line scores 5 |
| Articles.CleanEntry | bitcoin-sentiment-tracker-demo/backend/app.py:54-57 | missing title becomes "(untitled)", missing link becomes ""; an empty or missing summary falls back to the description; each field is stripped |
| Articles.Cutoff | bitcoin-sentiment-tracker-demo/backend/app.py:52-53 | no article when the maximum is ≤ 0, otherwise min(total, maximum) |
| Articles.FetchArticles | bitcoin-sentiment-tracker-demo/backend/app.py:48-60 | the nested loops with their two length checks return exactly the cleaned first `Cutoff` entries of the feeds concatenated |
| Articles.CollectedSaturated | bitcoin-sentiment-tracker-demo/backend/app.py:52-53 | once the maximum is reached, further entries change nothing |
| Articles.FlattenPrefix | bitcoin-sentiment-tracker-demo/backend/app.py:49-51 | the entries of the first f feeds are a prefix of all the entries |
| Articles.CollectedFirstEntries | bitcoin-sentiment-tracker-demo/backend/app.py:48-60 | the articles are exactly min(maximum, total) in number (none if the maximum is ≤ 0), and the i-th is the cleaned i-th entry |
| Articles.BlankSummaryNotReplaced | bitcoin-sentiment-tracker-demo/backend/app.py:56-57 | a whitespace-only summary is kept over the description and strips to "" |
| Articles.ArticleFieldsStripped | bitcoin-sentiment-tracker-demo/backend/app.py:57 | every stored field is already stripped |
| Articles.ContextLine | bitcoin-sentiment-tracker-demo/backend/app.py:124-127 | "- title: summary" when the summary is non-empty, otherwise "- title" |
| Articles.BuildContext | bitcoin-sentiment-tracker-demo/backend/app.py:122-128 | the loop builds one line per article, in order, and joins them with newlines |
| Articles.JoinCountsSeparators | bitcoin-sentiment-tracker-demo/backend/app.py:128 | joining newline-free lines gives exactly one newline fewer than there are lines |
| Articles.EmptyContext | bitcoin-sentiment-tracker-demo/backend/app.py:128 | with no articles the context is the empty string |
| Articles.Sources | bitcoin-sentiment-tracker-demo/backend/app.py:150 | one source per article, in order, with uri = link and title = title |
| Articles.GetSentiment | bitcoin-sentiment-tracker-demo/backend/app.py:106-156 | the report is the score of the parsed answer, the stripped answer, and the sources of the first five cleaned entries, where the answer is the model applied to their context |
| Articles.ReportSources | bitcoin-sentiment-tracker-demo/backend/app.py:119-150 | at most five sources are reported, the i-th being the stripped link and title of the i-th entry |

## Left out

- Market-data download and caching (`fetch_market_data`, `lru_cache`). These are network I/O. The stored tickers are modelled; the fetched prices are not.
- `DataManager` `lookback_years`, `pct_change`, `resample` and `cov`. These are library calls; covariances, volatilities and the regime score are inputs.
- The Riskfolio solvers and the `sort_order` probe. Each is a parameter of the builder, returning a raise, `None` or a weights frame. The probe is an optional order.
- The regime score itself (`pinv` and the quadratic form). This is float linear algebra; `GetStatus` takes the score as given.
- Portfolio volatility and individual volatilities. Dafny has no square root, so both are inputs: `vol` with `vol ≥ 0` and `vol² = wᵀCw`, and the σ values as a sequence.
- Risk.RiskContribution: the shares are in the covariance's column order. The source pairs them with `weights_dict` keys by `zip`, which relies on both orders agreeing; the model does not check that.
- GARCH fitting, Student-t quantiles, VaR and ES, and the `np.percentile` fallback of `run_stress_test`. These are foreign iterative fits and float interpolation.
- Rounding to 4 or 2 decimals. This is display rounding on floats; every property is stated on the exact values before rounding.
- Float behaviour: NaN, infinities, overflow and rounding error in the sums. The model's arithmetic is exact.
- Duplicate index labels in `weights.iloc[:, 0].to_dict()`. Later duplicates would overwrite earlier ones; the model keeps one row per solver row.
- The FastAPI and Flask apps, CORS, the endpoints' HTTP error mapping, JSON serialisation and the correlation-matrix formatting. These are web plumbing. The one endpoint expression that shapes data, the cluster-order fallback, is modelled. The log line `build_portfolio` prints when HRP fails is dropped; the fallback itself is modelled.
- `feedparser.parse`, `genai.configure` and `call_gemini`. These are network SDK calls. Feeds are sequences of already-parsed entries, and the model's answer is a function of the context.
- The prompt template around the context. It is fixed text, folded into that function.
- The default `max_articles = 10`. Only the call with 5 is modelled as a constant; `FetchArticles` takes any maximum.
- Unicode detail of `re` and `str`. `\s`, `\w`, `str.lower`, `str.strip` and `re.IGNORECASE` are modelled over ASCII. Python treats more characters as whitespace or word characters. Under IGNORECASE it also treats a few non-ASCII letters (e.g. U+212A KELVIN SIGN, U+017F LONG S) as case variants of "k" and "s".
- A feed entry attribute that exists but is not a string. Every modelled attribute is either a string or absent.
