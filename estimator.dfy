/** The estimates of the classifier, as functions of its counts: the
    Laplace-smoothed word probability (`_P_feat_class`), the class prior
    (`_get_category_probability`), the log-likelihood of a text, the decision
    rule of `classify` and the word metric of `_collect_word_stat`.

    Exact rationals stand for the `Decimal` and `float` values of `naive_bayes.py`, and
    the natural logarithm is a parameter `ln`. Facts that depend on what a
    logarithm is are proved for every `ln` that is strictly increasing on the
    positive reals and turns products into sums (`IsLog`).
 */
module Estimator {
  import opened MapSums
  import opened WordTables
  import opened Ranking

  /** The exceptions the classifier can raise. */
  datatype Error =
    | KeyError          // a category the constructor was not given
    | DivisionByZero    // a `Decimal` division by zero
    | InvalidOperation  // the `Decimal` division 0 / 0

  datatype Result<T> = Success(value: T) | Failure(error: Error)

  /** The record `{'total': ..., 'word_count': ...}` kept per category. */
  datatype CategoryStats = CategoryStats(total: nat, wordCount: nat)

  /** What the estimates read of the classifier: `words`, `categories` and
      the number of unique words. */
  datatype Counts = Counts(words: WordTable, categories: map<Category, CategoryStats>, vocabulary: nat)

  /** The Laplace pseudocount `z`. */
  const Smoothing: nat := 1

  /** The constant class prior returned by `_get_category_probability`. */
  const Prior: real := 0.5

  /** The starting value of the likelihood accumulator. */
  const LikelihoodBias: real := 1.0

  /** The product of two reals; the logarithm law below is stated on it, so
      that the law is used only where a proof names a product. */
  function Product(a: real, b: real): real {
    a * b
  }

  /** `ln` is strictly increasing on the positive reals. */
  ghost predicate Increasing(ln: real -> real) {
    forall a: real, b: real :: 0.0 < a < b ==> ln(a) < ln(b)
  }

  /** `ln` maps products of positive reals to sums. */
  ghost predicate Additive(ln: real -> real) {
    forall a: real, b: real :: 0.0 < a && 0.0 < b ==> ln(Product(a, b)) == ln(a) + ln(b)
  }

  /** What the model uses of the logarithm. */
  ghost predicate IsLog(ln: real -> real) {
    Increasing(ln) && Additive(ln)
  }

  /** The counts as training leaves them: each category's word total is the
      sum of its per-word counts, and the vocabulary is the number of words. */
  ghost predicate WellFormed(m: Counts) {
    && m.vocabulary == |m.words.Keys|
    && forall c :: c in m.categories ==> m.categories[c].wordCount == Sum(CountsOf(m.words, c))
  }

  /** `_get_category_probability(count)`: the same prior whatever the count. */
  function CategoryProbability(count: nat): real {
    Prior
  }

  function Max(a: real, b: real): real {
    if a >= b then a else b
  }

  /** The denominator `N_c + z * V` of the smoothed probability. */
  function Denominator(m: Counts, c: Category): nat
    requires c in m.categories
  {
    m.categories[c].wordCount + Smoothing * m.vocabulary
  }

  /** `_P_feat_class` succeeds for category `c`. */
  predicate CanEstimate(m: Counts, c: Category) {
    c in m.categories && Denominator(m, c) > 0
  }

  /** `_P_feat_class(category, word)`: `(z + n) / (N_c + z * V)`, where `n` is
      the word's count in the category (0 if unseen). */
  function FeatureProbability(m: Counts, c: Category, w: string): (r: Result<real>)
    ensures r.Success? <==> CanEstimate(m, c)
    ensures r.Failure? ==> r.error == if c in m.categories then DivisionByZero else KeyError
    ensures r.Success? ==> r.value > 0.0
  {
    if c !in m.categories then Failure(KeyError)
    else if Denominator(m, c) == 0 then Failure(DivisionByZero)
    else Success((Smoothing + CountOf(m.words, w, c)) as real / Denominator(m, c) as real)
  }

  /** The sum of the logarithms of the word probabilities of `tokens`. */
  function LogLikelihood(m: Counts, c: Category, tokens: seq<string>, ln: real -> real): real
    requires tokens == [] || CanEstimate(m, c)
  {
    if tokens == [] then 0.0
    else LogLikelihood(m, c, tokens[..|tokens| - 1], ln) + ln(FeatureProbability(m, c, tokens[|tokens| - 1]).value)
  }

  /** The product of the word probabilities of `tokens`. */
  function Likelihood(m: Counts, c: Category, tokens: seq<string>): real
    requires tokens == [] || CanEstimate(m, c)
  {
    if tokens == [] then 1.0
    else Likelihood(m, c, tokens[..|tokens| - 1]) * FeatureProbability(m, c, tokens[|tokens| - 1]).value
  }

  /** `probabilities[c]` in `classify`: the prior plus
      `_get_predictors_probability`. */
  function Score(m: Counts, c: Category, tokens: seq<string>, ln: real -> real): real
    requires c in m.categories
    requires tokens == [] || CanEstimate(m, c)
  {
    CategoryProbability(m.categories[c].total) + LikelihoodBias + LogLikelihood(m, c, tokens, ln)
  }

  /** The outcome of `classify` on `tokens`: a category whose probability
      cannot be computed raises `DivisionByZero`; a missing category 1 or 0
      then raises `KeyError`; otherwise 1 wins only with a strictly larger
      score. */
  ghost function Decision(m: Counts, tokens: seq<string>, ln: real -> real): Result<Category> {
    if tokens != [] && exists c :: c in m.categories && !CanEstimate(m, c) then Failure(DivisionByZero)
    else if 1 !in m.categories || 0 !in m.categories then Failure(KeyError)
    else Success(if Score(m, 1, tokens, ln) > Score(m, 0, tokens, ln) then 1 else 0)
  }

  /** The metric `_collect_word_stat` computes for `w`: with
      `p1 = ln(P(1, w) * prior)` and `p2 = ln(P(0, w) * prior)`, the larger of
      `p1 / p2` and `p2 / p1`. A zero logarithm makes a `Decimal` division
      fail: `InvalidOperation` for 0 / 0, `DivisionByZero` otherwise. */
  function WordMetric(m: Counts, w: string, ln: real -> real): Result<real> {
    if 1 !in m.categories || 0 !in m.categories then Failure(KeyError)
    else
      var spamPrior := CategoryProbability(m.categories[1].total);
      var hamPrior := CategoryProbability(m.categories[0].total);
      var q1 := FeatureProbability(m, 1, w);
      if q1.Failure? then Failure(q1.error)
      else
        var q2 := FeatureProbability(m, 0, w);
        if q2.Failure? then Failure(q2.error)
        else
          var p1 := ln(q1.value * spamPrior);
          var p2 := ln(q2.value * hamPrior);
          if p2 == 0.0 then Failure(if p1 == 0.0 then InvalidOperation else DivisionByZero)
          else if p1 == 0.0 then Failure(DivisionByZero)
          else Success(Max(p1 / p2, p2 / p1))
  }

  /** `_collect_word_stat` succeeds: both categories exist and every word
      has a metric. */
  predicate AllMetricsDefined(m: Counts, ln: real -> real) {
    && 0 in m.categories && 1 in m.categories
    && forall w :: w in m.words ==> WordMetric(m, w, ln).Success?
  }

  /** The number of leading words of `order` whose metric can be computed:
      the position of the first failure, or `|order|`. */
  function DefinedPrefix(m: Counts, order: seq<string>, ln: real -> real): (n: nat)
    ensures n <= |order|
    ensures forall i :: 0 <= i < n ==> WordMetric(m, order[i], ln).Success?
    ensures n < |order| ==> WordMetric(m, order[n], ln).Failure?
  {
    if order == [] || WordMetric(m, order[0], ln).Failure? then 0
    else 1 + DefinedPrefix(m, order[1..], ln)
  }

  /** `before` with the metric of each word of `order` stored, in order. */
  function StoreMetrics(m: Counts, before: map<string, real>, order: seq<string>, ln: real -> real): map<string, real>
    requires forall i :: 0 <= i < |order| ==> WordMetric(m, order[i], ln).Success?
  {
    if order == [] then before
    else
      var last := order[|order| - 1];
      StoreMetrics(m, before, order[..|order| - 1], ln)[last := WordMetric(m, last, ln).value]
  }

  /** The outcome of `_collect_word_stat` over the words `order`: `KeyError`
      without both categories, else the error of the first word whose metric
      fails. */
  function CollectOutcome(m: Counts, order: seq<string>, ln: real -> real): Result<()> {
    if 1 !in m.categories || 0 !in m.categories then Failure(KeyError)
    else
      var n := DefinedPrefix(m, order, ln);
      if n < |order| then Failure(WordMetric(m, order[n], ln).error) else Success(())
  }

  /** The metrics after `_collect_word_stat` runs on `before`: the words up to
      the first failure get their metric. */
  function Collected(m: Counts, order: seq<string>, before: map<string, real>, ln: real -> real): map<string, real> {
    if 1 !in m.categories || 0 !in m.categories then before
    else StoreMetrics(m, before, order[..DefinedPrefix(m, order, ln)], ln)
  }

  /** The `(word, metric)` pairs of the words of `order`, in that order. */
  function StatList(m: Counts, order: seq<string>, ln: real -> real): seq<RankedWord>
    requires forall i :: 0 <= i < |order| ==> WordMetric(m, order[i], ln).Success?
  {
    if order == [] then []
    else
      var last := order[|order| - 1];
      StatList(m, order[..|order| - 1], ln) + [RankedWord(last, WordMetric(m, last, ln).value)]
  }

  // ---------------------------------------------------------------------------
  // Collecting the metrics

  /** Storing the metrics of `order` adds exactly the words of `order` to the
      keys. */
  lemma {:induction false} StoreMetricsKeys(m: Counts, before: map<string, real>, order: seq<string>, ln: real -> real)
    requires forall i :: 0 <= i < |order| ==> WordMetric(m, order[i], ln).Success?
    ensures StoreMetrics(m, before, order, ln).Keys == before.Keys + Elements(order)
  {
    if order != [] {
      var init, last := order[..|order| - 1], order[|order| - 1];
      StoreMetricsKeys(m, before, init, ln);
      assert order == init + [last];
      assert Elements(order) == Elements(init) + {last};
    }
  }

  /** Each word of `order` is stored with its metric, and every other entry
      is kept. */
  lemma {:induction false} StoreMetricsEntries(m: Counts, before: map<string, real>, order: seq<string>, ln: real -> real)
    requires forall i :: 0 <= i < |order| ==> WordMetric(m, order[i], ln).Success?
    ensures forall w :: w in order ==> w in StoreMetrics(m, before, order, ln) && StoreMetrics(m, before, order, ln)[w] == WordMetric(m, w, ln).value
    ensures forall w :: w in before && w !in order ==> w in StoreMetrics(m, before, order, ln) && StoreMetrics(m, before, order, ln)[w] == before[w]
  {
    if order != [] {
      var init, last := order[..|order| - 1], order[|order| - 1];
      StoreMetricsEntries(m, before, init, ln);
      assert order == init + [last];
    }
  }

  /** Collecting the metrics of the words adds no key outside the vocabulary. */
  lemma CollectedKeys(m: Counts, order: seq<string>, before: map<string, real>, ln: real -> real)
    requires m.words.Keys == Elements(order)
    ensures Collected(m, order, before, ln).Keys <= before.Keys + m.words.Keys
  {
    if 1 in m.categories && 0 in m.categories {
      StoreMetricsKeys(m, before, order[..DefinedPrefix(m, order, ln)], ln);
    }
  }

  /** After a successful collection every word of `order` has a metric, and
      its stored value is that metric. */
  lemma CollectedMetrics(m: Counts, order: seq<string>, before: map<string, real>, ln: real -> real)
    requires CollectOutcome(m, order, ln).Success?
    ensures DefinedPrefix(m, order, ln) == |order|
    ensures forall i :: 0 <= i < |order| ==> WordMetric(m, order[i], ln).Success?
    ensures forall w :: w in order ==> w in Collected(m, order, before, ln) && Collected(m, order, before, ln)[w] == WordMetric(m, w, ln).value
  {
    assert order[..|order|] == order;
    StoreMetricsEntries(m, before, order, ln);
  }

  /** `_collect_word_stat` succeeds exactly when both categories exist and
      every word of the vocabulary has a metric. */
  lemma CollectOutcomeSuccess(m: Counts, order: seq<string>, ln: real -> real)
    requires m.words.Keys == Elements(order)
    ensures CollectOutcome(m, order, ln).Success? <==> AllMetricsDefined(m, ln)
  {
  }

  // ---------------------------------------------------------------------------
  // The smoothed probability

  /** With the counts as training leaves them, `_P_feat_class` can be computed
      exactly when the category is known and at least one token was trained. */
  lemma CanEstimateIffTrained(m: Counts, c: Category)
    requires WellFormed(m)
    ensures CanEstimate(m, c) <==> c in m.categories && m.words != map[]
  {
  }

  /** The smoothed probability lies in (0, 1]. */
  lemma FeatureProbabilityBounds(m: Counts, c: Category, w: string)
    requires WellFormed(m) && CanEstimate(m, c)
    ensures 0.0 < FeatureProbability(m, c, w).value <= 1.0
  {
    var n := CountOf(m.words, w, c);
    if w in m.words {
      SumAtLeastTerm(CountsOf(m.words, c), w);
      assert w in m.words.Keys;
    }
    assert Smoothing + n <= Denominator(m, c);
    FractionInUnitInterval(Smoothing + n, Denominator(m, c));
  }

  lemma FractionInUnitInterval(a: nat, b: nat)
    requires 0 < a <= b
    ensures 0.0 < a as real / b as real <= 1.0
  {
  }

  /** An unseen word gets the smallest probability, `1 / (N_c + V)`; a word
      seen in the category gets strictly more. */
  lemma UnseenWordFloor(m: Counts, c: Category, w: string)
    requires CanEstimate(m, c)
    ensures FeatureProbability(m, c, w).value >= 1.0 / Denominator(m, c) as real
    ensures FeatureProbability(m, c, w).value == 1.0 / Denominator(m, c) as real <==> CountOf(m.words, w, c) == 0
  {
  }

  /** The smoothed counts of the known words add up to the denominator, so the
      probabilities of the vocabulary sum to one. */
  lemma SmoothedCountsNormalise(m: Counts, c: Category)
    requires WellFormed(m) && c in m.categories
    ensures Sum(map w | w in m.words :: Smoothing + CountOf(m.words, w, c)) == Denominator(m, c)
  {
    var counts := CountsOf(m.words, c);
    var smoothed := map w | w in m.words :: Smoothing + CountOf(m.words, w, c);
    assert counts.Keys == m.words.Keys;
    SumShiftByOne(counts, smoothed);
  }

  // ---------------------------------------------------------------------------
  // The likelihood and the decision

  /** The likelihood of a text is positive. */
  lemma {:induction false} LikelihoodPositive(m: Counts, c: Category, tokens: seq<string>)
    requires tokens == [] || CanEstimate(m, c)
    ensures 0.0 < Likelihood(m, c, tokens)
  {
    if tokens != [] {
      LikelihoodPositive(m, c, tokens[..|tokens| - 1]);
    }
  }

  /** The likelihood of a text is a probability. */
  lemma {:induction false} LikelihoodBounds(m: Counts, c: Category, tokens: seq<string>)
    requires WellFormed(m)
    requires tokens == [] || CanEstimate(m, c)
    ensures 0.0 < Likelihood(m, c, tokens) <= 1.0
  {
    if tokens != [] {
      var init := tokens[..|tokens| - 1];
      LikelihoodBounds(m, c, init);
      FeatureProbabilityBounds(m, c, tokens[|tokens| - 1]);
      ProductInUnitInterval(Likelihood(m, c, init), FeatureProbability(m, c, tokens[|tokens| - 1]).value);
    }
  }

  lemma ProductInUnitInterval(a: real, b: real)
    requires 0.0 < a <= 1.0 && 0.0 < b <= 1.0
    ensures 0.0 < a * b <= 1.0
  {
    assert a * b <= a * 1.0;
  }

  /** A logarithm maps one to zero. */
  lemma LogOfOne(ln: real -> real)
    requires Additive(ln)
    ensures ln(1.0) == 0.0
  {
    assert ln(Product(1.0, 1.0)) == ln(1.0) + ln(1.0);
  }

  lemma LogOfProduct(ln: real -> real, a: real, b: real)
    requires Additive(ln) && 0.0 < a && 0.0 < b
    ensures ln(a * b) == ln(a) + ln(b)
  {
    assert ln(Product(a, b)) == ln(a) + ln(b);
  }

  /** The accumulated sum of logarithms is the logarithm of the likelihood. */
  lemma {:induction false} LogLikelihoodIsLogOfLikelihood(m: Counts, c: Category, tokens: seq<string>, ln: real -> real)
    requires Additive(ln)
    requires tokens == [] || CanEstimate(m, c)
    ensures LogLikelihood(m, c, tokens, ln) == ln(Likelihood(m, c, tokens))
  {
    if tokens == [] {
      LogOfOne(ln);
    } else {
      var init, last := tokens[..|tokens| - 1], tokens[|tokens| - 1];
      LogLikelihoodIsLogOfLikelihood(m, c, init, ln);
      LikelihoodPositive(m, c, init);
      var p := FeatureProbability(m, c, last).value;
      LogAccumulates(ln, Likelihood(m, c, init), p, LogLikelihood(m, c, init, ln),
                     Likelihood(m, c, tokens), LogLikelihood(m, c, tokens, ln));
    }
  }

  /** If `sum` is the logarithm of `product`, then adding the logarithm of a
      positive factor gives the logarithm of the extended product. */
  lemma LogAccumulates(ln: real -> real, product: real, factor: real, sum: real, product': real, sum': real)
    requires Additive(ln) && 0.0 < product && 0.0 < factor
    requires sum == ln(product)
    requires product' == product * factor && sum' == sum + ln(factor)
    ensures sum' == ln(product')
  {
    LogOfProduct(ln, product, factor);
  }

  /** An increasing function keeps the order of positive numbers both ways. */
  lemma LogMonotone(ln: real -> real, a: real, b: real)
    requires Increasing(ln) && 0.0 < a && 0.0 < b
    ensures ln(a) > ln(b) <==> a > b
    ensures ln(a) >= ln(b) <==> a >= b
  {
    if a < b {
      assert ln(a) < ln(b);
    } else if b < a {
      assert ln(b) < ln(a);
    }
  }

  /** `classify` returns 1 exactly when the text is strictly more likely under
      category 1 than under category 0: the equal priors cancel, and ties go
      to 0. */
  lemma DecisionComparesLikelihoods(m: Counts, tokens: seq<string>, ln: real -> real)
    requires IsLog(ln)
    requires Decision(m, tokens, ln).Success?
    ensures tokens == [] || (CanEstimate(m, 1) && CanEstimate(m, 0))
    ensures Decision(m, tokens, ln).value == 1 <==> Likelihood(m, 1, tokens) > Likelihood(m, 0, tokens)
    ensures Decision(m, tokens, ln).value == 0 <==> Likelihood(m, 1, tokens) <= Likelihood(m, 0, tokens)
  {
    LogLikelihoodIsLogOfLikelihood(m, 1, tokens, ln);
    LogLikelihoodIsLogOfLikelihood(m, 0, tokens, ln);
    LikelihoodPositive(m, 1, tokens);
    LikelihoodPositive(m, 0, tokens);
    LogMonotone(ln, Likelihood(m, 1, tokens), Likelihood(m, 0, tokens));
  }

  /** A text without tokens is ham whenever both categories exist. */
  lemma EmptyTextIsHam(m: Counts, ln: real -> real)
    requires 0 in m.categories && 1 in m.categories
    ensures Decision(m, [], ln) == Success(0)
  {
  }

  /** Once a token was trained, `classify` succeeds if both categories exist,
      and raises `KeyError` otherwise. */
  lemma DecisionDefinedWhenTrained(m: Counts, tokens: seq<string>, ln: real -> real)
    requires WellFormed(m) && m.words != map[]
    ensures Decision(m, tokens, ln).Success? <==> 0 in m.categories && 1 in m.categories
    ensures Decision(m, tokens, ln).Failure? ==> Decision(m, tokens, ln).error == KeyError
  {
  }

  /** Before any token was trained, classifying a text that has tokens raises
      `DivisionByZero` in `_P_feat_class` as soon as there is a category. */
  lemma UntrainedDecisionFails(m: Counts, tokens: seq<string>, ln: real -> real)
    requires WellFormed(m) && m.words == map[]
    requires tokens != [] && exists c :: c in m.categories
    ensures Decision(m, tokens, ln) == Failure(DivisionByZero)
  {
  }

  /** With equal denominators the word that is seen more often in a category
      has the larger probability there. */
  lemma FeatureProbabilityCompare(m: Counts, hi: Category, lo: Category, w: string)
    requires CanEstimate(m, hi) && CanEstimate(m, lo) && Denominator(m, hi) == Denominator(m, lo)
    ensures FeatureProbability(m, hi, w).value >= FeatureProbability(m, lo, w).value
            <==> CountOf(m.words, w, hi) >= CountOf(m.words, w, lo)
    ensures FeatureProbability(m, hi, w).value > FeatureProbability(m, lo, w).value
            <==> CountOf(m.words, w, hi) > CountOf(m.words, w, lo)
  {
    var d := Denominator(m, hi) as real;
    var k1 := (Smoothing + CountOf(m.words, w, hi)) as real;
    var k0 := (Smoothing + CountOf(m.words, w, lo)) as real;
    assert k1 / d - k0 / d == (k1 - k0) / d;
  }

  /** Token `i` has been seen more often in category 1 than in 0. */
  predicate FavoursSpam(m: Counts, tokens: seq<string>, i: int)
    requires 0 <= i < |tokens|
  {
    CountOf(m.words, tokens[i], 1) > CountOf(m.words, tokens[i], 0)
  }

  /** Some token of the text has been seen more often in category 1 than in 0. */
  predicate SomeFavoursSpam(m: Counts, tokens: seq<string>)
  {
    exists i :: 0 <= i < |tokens| && FavoursSpam(m, tokens, i)
  }

  /** Some token of a text favours category 1 exactly when one of all but its
      last token does or its last token does. */
  lemma FavoursSpamSplit(m: Counts, tokens: seq<string>)
    requires tokens != []
    ensures SomeFavoursSpam(m, tokens)
            <==> SomeFavoursSpam(m, tokens[..|tokens| - 1]) || FavoursSpam(m, tokens, |tokens| - 1)
  {
    var init := tokens[..|tokens| - 1];
    if SomeFavoursSpam(m, init) {
      var i :| 0 <= i < |init| && FavoursSpam(m, init, i);
      assert FavoursSpam(m, tokens, i);
    }
    if SomeFavoursSpam(m, tokens) {
      var i :| 0 <= i < |tokens| && FavoursSpam(m, tokens, i);
      if i < |init| {
        assert FavoursSpam(m, init, i);
      }
    }
  }

  /** With equal denominators, a text whose every word is seen at least as often
      in category 1 as in 0 has at least as large a sum of logarithms under 1,
      and a strictly larger one exactly when one of its words is seen more often
      in 1. */
  lemma {:induction false} LogLikelihoodDominates(m: Counts, tokens: seq<string>, ln: real -> real)
    requires Increasing(ln)
    requires CanEstimate(m, 1) && CanEstimate(m, 0) && Denominator(m, 1) == Denominator(m, 0)
    requires forall i :: 0 <= i < |tokens| ==> CountOf(m.words, tokens[i], 1) >= CountOf(m.words, tokens[i], 0)
    ensures LogLikelihood(m, 1, tokens, ln) >= LogLikelihood(m, 0, tokens, ln)
    ensures LogLikelihood(m, 1, tokens, ln) > LogLikelihood(m, 0, tokens, ln) <==> SomeFavoursSpam(m, tokens)
  {
    if tokens != [] {
      var init, last := tokens[..|tokens| - 1], tokens[|tokens| - 1];
      assert forall i :: 0 <= i < |init| ==> init[i] == tokens[i];
      LogLikelihoodDominates(m, init, ln);
      FeatureProbabilityCompare(m, 1, 0, last);
      LogMonotone(ln, FeatureProbability(m, 1, last).value, FeatureProbability(m, 0, last).value);
      FavoursSpamSplit(m, tokens);
    }
  }

  /** Hence, with both categories trained to the same number of words, such a
      text is classified 1 exactly when one of its words is seen more often in
      category 1. */
  lemma DecisionByWordCounts(m: Counts, tokens: seq<string>, ln: real -> real)
    requires Increasing(ln) && WellFormed(m) && m.words != map[]
    requires 0 in m.categories && 1 in m.categories
    requires m.categories[0].wordCount == m.categories[1].wordCount
    requires forall i :: 0 <= i < |tokens| ==> CountOf(m.words, tokens[i], 1) >= CountOf(m.words, tokens[i], 0)
    ensures Decision(m, tokens, ln) == Success(if SomeFavoursSpam(m, tokens) then 1 else 0)
  {
    DecisionDefinedWhenTrained(m, tokens, ln);
    CanEstimateIffTrained(m, 1);
    CanEstimateIffTrained(m, 0);
    LogLikelihoodDominates(m, tokens, ln);
  }

  // ---------------------------------------------------------------------------
  // The word metric and the ranking

  lemma RatioMaxAtLeastOne(a: real, b: real)
    requires a < 0.0 && b < 0.0
    ensures Max(a / b, b / a) >= 1.0
  {
    if a <= b {
      assert a / b >= 1.0 by {
        assert a / b * b == a;
      }
    } else {
      assert b / a >= 1.0 by {
        assert b / a * a == b;
      }
    }
  }

  /** The logarithm of a probability times the prior one half is negative. */
  lemma LogOfWeightedProbability(ln: real -> real, q: real)
    requires IsLog(ln) && 0.0 < q <= 1.0
    ensures ln(q * Prior) < 0.0
  {
    LogOfOne(ln);
    assert 0.0 < q * Prior < 1.0;
  }

  /** With both categories present and the counts as training leaves them,
      every known word has a metric, and the metric is at least one: both
      logarithms are of probabilities at most one half, hence negative. */
  lemma WordMetricDefined(m: Counts, w: string, ln: real -> real)
    requires IsLog(ln) && WellFormed(m)
    requires 0 in m.categories && 1 in m.categories && w in m.words
    ensures WordMetric(m, w, ln).Success?
    ensures WordMetric(m, w, ln).value >= 1.0
  {
    CanEstimateIffTrained(m, 1);
    CanEstimateIffTrained(m, 0);
    FeatureProbabilityBounds(m, 1, w);
    FeatureProbabilityBounds(m, 0, w);
    var q1 := FeatureProbability(m, 1, w).value;
    var q2 := FeatureProbability(m, 0, w).value;
    LogOfWeightedProbability(ln, q1);
    LogOfWeightedProbability(ln, q2);
    RatioMaxAtLeastOne(ln(q1 * Prior), ln(q2 * Prior));
  }

  /** Hence `_collect_word_stat` succeeds on a trained model with both
      categories. */
  lemma CollectSucceeds(m: Counts, order: seq<string>, ln: real -> real)
    requires IsLog(ln) && WellFormed(m)
    requires 0 in m.categories && 1 in m.categories
    requires m.words.Keys == Elements(order)
    ensures AllMetricsDefined(m, ln)
    ensures CollectOutcome(m, order, ln) == Success(())
  {
    forall w | w in m.words ensures WordMetric(m, w, ln).Success? {
      WordMetricDefined(m, w, ln);
    }
    CollectOutcomeSuccess(m, order, ln);
  }

  /** The pairs read back hold each word of `order` once, with its metric, in
      the order of `order`. */
  lemma {:induction false} StatListEntries(m: Counts, order: seq<string>, ln: real -> real)
    requires forall i :: 0 <= i < |order| ==> WordMetric(m, order[i], ln).Success?
    ensures |StatList(m, order, ln)| == |order|
    ensures forall i :: 0 <= i < |order| ==> StatList(m, order, ln)[i] == RankedWord(order[i], WordMetric(m, order[i], ln).value)
  {
    if order != [] {
      StatListEntries(m, order[..|order| - 1], ln);
    }
  }

  /** The ranking `get_stat` returns: one pair per word of `order`, by
      non-increasing metric, with words of equal metric in the order of
      `order`. */
  lemma RankingProperties(m: Counts, order: seq<string>, ln: real -> real)
    requires forall i :: 0 <= i < |order| ==> WordMetric(m, order[i], ln).Success?
    ensures SortedDescending(SortByMetricDescending(StatList(m, order, ln)))
    ensures multiset(SortByMetricDescending(StatList(m, order, ln))) == multiset(StatList(m, order, ln))
    ensures forall x: real :: WithMetric(SortByMetricDescending(StatList(m, order, ln)), x) == WithMetric(StatList(m, order, ln), x)
  {
    var stat := StatList(m, order, ln);
    SortIsDescending(stat);
    SortIsPermutation(stat);
    forall x: real ensures WithMetric(SortByMetricDescending(stat), x) == WithMetric(stat, x) {
      SortIsStable(stat, x);
    }
  }
}
