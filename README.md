# Naive Bayes spam filter, modelled in Dafny

This project models the classifier of `naive_bayes.py`: the tokenizer
`tokenize_text` and the class `NaiveBayes`. The class counts words per category
during training. It classifies a text by comparing the Laplace-smoothed
log-likelihoods of spam (category 1) and ham (category 0). It ranks the words
of the vocabulary by how lopsided their log-probabilities are.

Layout:

- `tokenizer.dfy` (module `Tokenizer`): `tokenize_text` as pure functions.
  Cutting into runs of `[\w']`, lower-casing and dropping short tokens are
  separate functions, with lemmas about each.
- `map_sums.dfy` (module `MapSums`): the sum of the values of a finite map.
- `word_table.dfy` (module `WordTables`): the `words` dictionary as a value.
  It covers what counting one token and a whole text does, and how the
  insertion order of the keys grows.
- `estimator.dfy` (module `Estimator`): the estimates as functions of the
  counts. These are the smoothed probability, the prior, the log-likelihood,
  the decision of `classify` and the word metric of `_collect_word_stat`.
  The errors each one raises are modelled too.
- `ranking.dfy` (module `Ranking`): the stable descending sort of `get_stat`.
- `naive_bayes.dfy` (module `NaiveBayesModel`): the class `NaiveBayes`. Its
  fields are the source's attributes. Its methods update them in place, with
  loops where the source loops.
- `training_example.dfy` (module `TrainingExample`): the classifier driven the
  way `spam_detect.py` drives it, with categories 0 and 1. One spam text and
  one ham text are trained, and a text made of spam words is classified as
  spam.

Conventions of the model:

- The source's Python exceptions are values of `Estimator.Result`:
  `KeyError` for an unknown category, `DivisionByZero` for a `Decimal`
  division by zero, `InvalidOperation` for `Decimal` 0 / 0.
- Exact reals stand for `Decimal` and `float`.
- `math.log` is a parameter `ln`. A lemma assumes as much about it as it
  needs: `Increasing(ln)` (strictly increasing on the positive reals),
  `Additive(ln)` (turns products into sums), or both (`IsLog(ln)`).
- The dictionaries' iteration order is kept explicitly. `wordOrder` holds the
  keys of `words` in insertion order, and `categoryOrder` those of
  `categories`. `get_stat` breaks ties in this order.
- The `'metric'` entry that `_collect_word_stat` writes into `words[word]` is
  kept in a separate field `metrics`. This keeps the per-category counts apart
  from the metric.

## Model

| member | source | states |
|---|---|---|
| Tokenizer.RunLength | naive_bayes.py:9 | the length of the longest leading run of `[\w']` characters: everything before it is a word character, and the character after it is not |
| Tokenizer.FindRuns | naive_bayes.py:9 | `re.findall(r"[\w']+")`: every run found is non-empty and made only of word characters |
| Tokenizer.LowerChar | naive_bayes.py:10 | lower-casing a character leaves no upper-case letter, keeps word characters word characters, and leaves other characters alone |
| Tokenizer.LowerProperties | naive_bayes.py:10 | `str.lower` on a token keeps its length and word characters, leaves no upper-case letter, and is the identity on lower-case text |
| Tokenizer.KeepLongMembers | naive_bayes.py:11 | the filter keeps exactly the words longer than 3 characters |
| Tokenizer.TokenizeWellFormed | naive_bayes.py:8-11 | every token is longer than 3 characters, made of word characters and lower case; every run longer than 3 characters appears lower-cased among the tokens |
| Tokenizer.FindRunsOfWord | naive_bayes.py:9 | a non-empty word is found as a single run |
| Tokenizer.FindRunsOfSeparators | naive_bayes.py:9 | a text without word characters has no runs |
| Tokenizer.FindRunsSplit | naive_bayes.py:9 | a non-word character splits the text: the runs are those of the left part followed by those of the right part |
| Tokenizer.FindRunsSplitAtRun | naive_bayes.py:9 | the same split for a text that starts with a run |
| Tokenizer.KeepLongAppend | naive_bayes.py:11 | the length filter distributes over concatenation (order and duplicates kept) |
| Tokenizer.LowerAllAppend | naive_bayes.py:10 | lower-casing each run distributes over concatenation |
| Tokenizer.TokenizeSplit | naive_bayes.py:8-11 | the tokens of two texts joined by a separator are the tokens of the first, then those of the second, duplicates kept |
| Tokenizer.TokenizeWord | naive_bayes.py:8-11 | a single word gives its lower-cased self if longer than 3 characters, and nothing otherwise |
| Tokenizer.TokenizeNoWords | naive_bayes.py:8-11 | a text with no word character (the empty text among them) gives no tokens |
| Tokenizer.TokenizeLowerWord | naive_bayes.py:8-11 | a lower-case word longer than 3 characters is its own single token |
| Tokenizer.TokenizeSpaced | naive_bayes.py:8-11 | four words separated by spaces tokenize word by word, in order |
| Tokenizer.ExampleShortWords | naive_bayes.py:11 | "The" and "fox" are dropped |
| Tokenizer.ExampleCapitalised | naive_bayes.py:10-11 | "Quick" gives "quick" |
| Tokenizer.ExampleLowerWord | naive_bayes.py:10-11 | "jumped" is kept as it is |
| Tokenizer.TokenizeExample | naive_bayes.py:8-11 | "The Quick fox jumped" gives ["quick", "jumped"] |
| WordTables.AppendNewDistinct | naive_bayes.py:37-41 | the key order of a dictionary grown by a text lists each key once, and its keys are the old ones plus the text's words |
| WordTables.AddTokenCounts | naive_bayes.py:37-41 | one occurrence adds the word to the keys and one to exactly the count of (word, category); every other count stays |
| WordTables.AddTokenSums | naive_bayes.py:37-41 | one occurrence adds one to the sum of the category's counts and nothing to the other categories' sums |
| WordTables.AddTokenValid | naive_bayes.py:37-41 | a new word goes to the end of the key order; the order stays duplicate-free and every count stays at least 1 |
| WordTables.AddTokensCounts | naive_bayes.py:25-41 | after a text, each word's count in the category grew by its number of occurrences in the tokens; counts of other categories and of other words are unchanged, so no count decreases |
| WordTables.AddTokensSums | naive_bayes.py:25-41 | a text adds its number of tokens, duplicates included, to the sum of the category's counts, and nothing to other categories' sums |
| WordTables.AddTokensValid | naive_bayes.py:25-41 | the key order and the positivity of the counts survive a whole text |
| NaiveBayesModel.CountTextEffect | naive_bayes.py:31-33 | recording a text of `n` words in a known category adds one text and `n` words to it and leaves the other categories unchanged |
| NaiveBayesModel.TotalsAfterTraining | naive_bayes.py:31-35 | one more text in a category adds one to the sum of the per-category text totals, which `training_examples` tracks |
| NaiveBayesModel.TotalsKnownCategory | naive_bayes.py:23-35 | training in a known category keeps the counting invariant, with the category's totals grown |
| NaiveBayesModel.TotalsUnknownCategory | naive_bayes.py:23-31 | counting the words of an unknown category before the `KeyError` still leaves the counting invariant true |
| NaiveBayesModel.TrainKnownCategory | naive_bayes.py:23-35 | the full effect of `train` in a known category keeps the counting invariant |
| NaiveBayesModel.TrainUnknownCategory | naive_bayes.py:23-31 | the partial effect of `train` in an unknown category keeps the counting invariant |
| NaiveBayesModel.NaiveBayes.ValidModel | naive_bayes.py:16-47 | the class invariant makes the counts well formed for the estimator: vocabulary size equals the number of keys, word totals equal the sums of per-word counts |
| NaiveBayesModel.NaiveBayes.constructor | naive_bayes.py:16-21 | every given category starts at zero totals, in first-occurrence order; no words, no unique words, no training examples; the invariant holds |
| NaiveBayesModel.NaiveBayes.IncWordFreq | naive_bayes.py:37-41 | `words` becomes `AddToken` of the old table; a new word is appended to the key order |
| NaiveBayesModel.NaiveBayes.IncCategoryWordCount | naive_bayes.py:43-47 | both branches add `number` to the category's word total, and nothing else changes |
| NaiveBayesModel.NaiveBayes.CountTokens | naive_bayes.py:25-28 | the loop over the tokens counts the whole text into `words`, grows the key order and adds the tokens to `unique_words` |
| NaiveBayesModel.NaiveBayes.RecordText | naive_bayes.py:31-35 | a known category gets one more text and as many more words as tokens, `training_examples` grows by one, and the invariant holds; an unknown category raises `KeyError` and changes no total |
| NaiveBayesModel.NaiveBayes.Train | naive_bayes.py:23-35 | `train` keeps the class invariant; it counts the tokens (even for an unknown category), then either raises `KeyError` with the totals untouched or adds one text and the token count to the category and one training example |
| NaiveBayesModel.NaiveBayes.PredictorsProbability | naive_bayes.py:65-70 | the loop returns `1 + Σ ln P(w, c)` over the tokens, or the error of `_P_feat_class` when the text has tokens and the probability cannot be computed |
| NaiveBayesModel.NaiveBayes.Classify | naive_bayes.py:49-58 | the result is `Decision` of the current counts: `DivisionByZero` if some category cannot estimate a non-empty text, else `KeyError` without categories 1 and 0, else 1 exactly when 1 scores strictly higher; nothing is modified |
| NaiveBayesModel.NaiveBayes.CollectWordStat | naive_bayes.py:81-90 | the outcome is `KeyError` without both categories, else the error of the first word whose metric fails, else success; the metrics of the words before the failure are stored |
| NaiveBayesModel.NaiveBayes.StoredStat | naive_bayes.py:95-97 | reading the stored metrics back gives each word with its metric, in dictionary order |
| NaiveBayesModel.NaiveBayes.GetStat | naive_bayes.py:92-99 | on success the result is the stable descending sort of the (word, metric) pairs of the vocabulary in dictionary order; failures are those of `_collect_word_stat`; only the metrics change |
| Estimator.FeatureProbability | naive_bayes.py:72-79 | `_P_feat_class` succeeds exactly when the category is known and `N_c + V > 0`; otherwise `KeyError` or `DivisionByZero`; a result is positive |
| Estimator.CanEstimateIffTrained | naive_bayes.py:72-79 | with well-formed counts the probability can be computed exactly when the category is known and some token was trained |
| Estimator.FeatureProbabilityBounds | naive_bayes.py:72-79 | with well-formed counts the smoothed probability lies in (0, 1] |
| Estimator.UnseenWordFloor | naive_bayes.py:75-79 | every probability is at least `1 / (N_c + V)`, with equality exactly for a word unseen in the category |
| Estimator.SmoothedCountsNormalise | naive_bayes.py:73-78 | the smoothed counts of the vocabulary add up to the denominator `N_c + V`, so the probabilities over the vocabulary sum to one |
| Estimator.LikelihoodPositive | naive_bayes.py:65-70 | the product of the probabilities of a text is positive |
| Estimator.LikelihoodBounds | naive_bayes.py:65-70 | with well-formed counts that product lies in (0, 1] |
| Estimator.LogLikelihoodIsLogOfLikelihood | naive_bayes.py:65-70 | the accumulated sum of logarithms is the logarithm of the product of the probabilities |
| Estimator.DecisionComparesLikelihoods | naive_bayes.py:53-62 | a successful `classify` returns 1 exactly when the text is strictly more likely under 1 than under 0, and 0 otherwise (ties to 0); the equal priors cancel |
| Estimator.EmptyTextIsHam | naive_bayes.py:53-58 | with both categories a text without tokens is classified 0 and does not fail |
| Estimator.DecisionDefinedWhenTrained | naive_bayes.py:49-58 | once a token was trained `classify` succeeds exactly when both categories exist, and raises `KeyError` otherwise |
| Estimator.FeatureProbabilityCompare | naive_bayes.py:72-79 | when categories 1 and 0 share the denominator `N_c + V`, a word is at least as probable (strictly more probable) in 1 exactly when its count there is at least as large (strictly larger) |
| Estimator.LogLikelihoodDominates | naive_bayes.py:65-70 | with a shared denominator and every token counted at least as often in 1 as in 0, the sum of logarithms for 1 is at least that for 0, and strictly larger exactly when some token is counted more often in 1 |
| Estimator.DecisionByWordCounts | naive_bayes.py:49-58 | with both categories trained to the same number of words and every token counted at least as often in 1, `classify` returns 1 exactly when some token is counted more often in 1, and 0 otherwise |
| Estimator.UntrainedDecisionFails | naive_bayes.py:72-79 | before any token was trained, classifying a text with tokens raises `DivisionByZero` as soon as there is a category |
| Estimator.WordMetricDefined | naive_bayes.py:82-89 | with both categories and well-formed counts every known word has a metric, and it is at least 1 |
| Estimator.CollectSucceeds | naive_bayes.py:81-90 | hence `_collect_word_stat` succeeds on such a model and every word gets a metric |
| Estimator.DefinedPrefix | naive_bayes.py:85-90 | the number of leading words whose metric can be computed: all before it succeed, the word at it fails |
| Estimator.StoreMetricsKeys | naive_bayes.py:85-90 | storing the metrics of a list of words adds exactly those words to the keys |
| Estimator.StoreMetricsEntries | naive_bayes.py:85-90 | each stored word holds its metric and every other entry is kept |
| Estimator.CollectedKeys | naive_bayes.py:81-90 | collecting the metrics adds no key outside the vocabulary |
| Estimator.CollectedMetrics | naive_bayes.py:85-97 | after a successful collection every word of the vocabulary holds its metric |
| Estimator.CollectOutcomeSuccess | naive_bayes.py:81-90 | `_collect_word_stat` succeeds exactly when both categories exist and every word has a metric |
| Estimator.StatListEntries | naive_bayes.py:95-98 | the pairs read back are one per word of the vocabulary, in dictionary order, each with its metric |
| Estimator.RankingProperties | naive_bayes.py:92-99 | the ranking returned is ordered by non-increasing metric, is a permutation of the (word, metric) pairs, and keeps the pairs of equal metric in dictionary order |
| Ranking.SortIsDescending | naive_bayes.py:98 | `sorted(..., key=itemgetter(1), reverse=True)` orders by non-increasing metric |
| Ranking.SortIsPermutation | naive_bayes.py:98 | the sort returns exactly the input pairs, each as often as in the input |
| Ranking.SortIsStable | naive_bayes.py:98 | the pairs of any one metric keep their input order |
| Ranking.SortOfSorted | naive_bayes.py:98 | sorting an already ranked list changes nothing |
| Ranking.SortIdempotent | naive_bayes.py:98 | sorting twice is sorting once |
| TrainingExample.ExampleWord | naive_bayes.py:8-11 | each word of the example texts is lower-case and longer than three characters, so it is a token of its own |
| TrainingExample.ThreeWords | naive_bayes.py:8-11 | three such words joined by single spaces give exactly those three tokens |
| TrainingExample.FourWords | naive_bayes.py:8-11 | four such words joined by single spaces give exactly those four tokens |
| TrainingExample.SpamTextTokens | naive_bayes.py:8-11 | "special offer special offer" gives ["special", "offer", "special", "offer"] |
| TrainingExample.HamTextTokens | naive_bayes.py:8-11 | "meeting notes meeting agenda" gives ["meeting", "notes", "meeting", "agenda"] |
| TrainingExample.UnknownTextTokens | naive_bayes.py:8-11 | "special special offer" gives ["special", "special", "offer"] |
| TrainingExample.TrainedCounts | naive_bayes.py:23-41 | training `[a, b, a, b]` as spam and then a ham text without `a` and `b` counts each of `a` and `b` twice for 1 and never for 0 |
| TrainingExample.SpamWordsDecide | naive_bayes.py:49-58 | with both categories trained to the same number of words, a text `[a, a, b]` whose words were counted twice for 1 and never for 0 is classified 1 |
| TrainingExample.UnknownTextIsSpam | naive_bayes.py:49-58 | counts trained from the spam text and then the ham text, with equal word totals, classify "special special offer" as 1 |
| TrainingExample.ClassifyAfterTraining | naive_bayes.py:16-58 | `NaiveBayes([0, 1])`, `train(1, ...)` on the spam text, `train(0, ...)` on the ham text, then `classify("special special offer")` returns 1 for every increasing logarithm |

## Left out

- `spam_detect.py` is not part of this model. It lists directories, reads
  files, parses MIME mail, strips HTML, writes CSV and prints: input and
  output around the classifier.
- The regex class `\w` and `str.lower` are modelled on ASCII only: letters,
  digits, `_` and `'`, and only 'A'..'Z' lower-cased. Unicode word characters
  and case mappings are not modelled.
- `Decimal` and `float` arithmetic is exact real arithmetic here. Rounding,
  the `float(...)` conversions and `Decimal` precision are not modelled.
  Neither are a logarithm that rounds to exactly 0 or a division that
  overflows.
- `math.log` is the parameter `ln`. The contracts of the methods of
  `NaiveBayes` hold for every `ln`. A lemma assumes `Increasing(ln)`,
  `Additive(ln)` or both (`IsLog`), as much as it needs.
  `TrainingExample.ClassifyAfterTraining` needs only `Increasing(ln)`.
- The commented-out prior at naive_bayes.py:63 is dead code and is not
  modelled; the prior is the constant 0.5.
- Untrained classification: `_P_feat_class` raises `DivisionByZero` when no
  token was ever trained and the text has tokens, because `N_c + |unique_words|`
  is 0. `classify` therefore fails on an untrained model, and the model keeps
  that exception (`Estimator.UntrainedDecisionFails`).
- Degenerate ranking metric: a logarithm that is exactly 0 makes the `Decimal`
  divisions of `_collect_word_stat` raise `DivisionByZero`, or
  `InvalidOperation` for 0 / 0. The model keeps the exception.
  `Estimator.WordMetricDefined` shows that this cannot happen for a trained
  model with a true logarithm.
- `get_stat` builds an intermediate dictionary `stat_dict` and sorts its
  items. The model reads the stored metrics back in key order (`StoredStat`),
  which is the same list.
- `NaiveBayesModel.NaiveBayes.Classify`: requires `categoryOrder` to list
  the keys of `categories` once. This is part of the class invariant that the
  constructor establishes and `train` keeps.
