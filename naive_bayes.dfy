/** The Naive Bayes classifier: training counts, the Laplace-smoothed word
    probability, the decision rule and the word ranking of `get_stat`.

    Exact rationals stand for the `Decimal` and `float` values of `naive_bayes.py`, and
    the natural logarithm is a parameter `ln` of the operations that use it.
    Facts that depend on what a logarithm is are proved for every `ln` that is
    strictly increasing on the positive reals and turns products into sums
    (`IsLog`).
 */
module NaiveBayesModel {
  import opened MapSums
  import opened WordTables
  import opened Tokenizer
  import opened Ranking
  import opened Estimator

  /** The category totals after one more text of `n` words in category `c`. */
  function CountText(cats: map<Category, CategoryStats>, c: Category, n: nat): map<Category, CategoryStats>
    requires c in cats
  {
    cats[c := CategoryStats(cats[c].total + 1, cats[c].wordCount + n)]
  }

  /** Training a text of `n` words in `c` adds one text and `n` words to `c`
      and leaves every other category as it was. */
  lemma CountTextEffect(cats: map<Category, CategoryStats>, c: Category, n: nat)
    requires c in cats
    ensures CountText(cats, c, n).Keys == cats.Keys
    ensures CountText(cats, c, n)[c].total == cats[c].total + 1
    ensures CountText(cats, c, n)[c].wordCount == cats[c].wordCount + n
    ensures forall d :: d in cats && d != c ==> CountText(cats, c, n)[d] == cats[d]
  {
  }

  /** The number of training texts of each category. */
  ghost function Totals(cats: map<Category, CategoryStats>): map<Category, nat> {
    map c | c in cats :: cats[c].total
  }

  /** The counting state, on values: `order` lists each key of `table` once,
      every stored count is at least one, the keys of `table` are the unique
      words, each category's word total is the sum of its per-word counts, and
      the number of training texts is the sum of the per-category totals. */
  ghost predicate CountsInvariant(table: WordTable, order: seq<string>, unique: set<string>,
                                  cats: map<Category, CategoryStats>, examples: nat) {
    && TableValid(table, order)
    && table.Keys == unique
    && (forall c :: c in cats ==> cats[c].wordCount == Sum(CountsOf(table, c)))
    && examples == Sum(Totals(cats))
  }

  /** One more training text in category `c` adds one to the sum of the
      per-category text counts. */
  lemma TotalsAfterTraining(cats: map<Category, CategoryStats>, c: Category, n: nat)
    requires c in cats
    ensures Sum(Totals(CountText(cats, c, n))) == Sum(Totals(cats)) + 1
  {
    var documents := Totals(cats);
    assert Totals(CountText(cats, c, n)) == documents[c := documents[c] + 1];
    SumUpdate(documents, c, documents[c] + 1);
  }

  /** Training one text in a known category `c` keeps the counting state
      consistent: given a well-formed new table whose keys are the old ones and
      the `added` words and whose word total of `c` grew by `n`, both totals of
      `c` grow, by one text and by `n` words. */
  lemma TotalsKnownCategory(table: WordTable, order: seq<string>, unique: set<string>,
                           cats: map<Category, CategoryStats>, examples: nat,
                           after: WordTable, order': seq<string>, added: set<string>, c: Category, n: nat)
    requires CountsInvariant(table, order, unique, cats, examples)
    requires TableValid(after, order') && after.Keys == unique + added
    requires Sum(CountsOf(after, c)) == Sum(CountsOf(table, c)) + n
    requires forall d :: d != c ==> Sum(CountsOf(after, d)) == Sum(CountsOf(table, d))
    requires c in cats
    ensures CountsInvariant(after, order', unique + added, CountText(cats, c, n), examples + 1)
  {
    TotalsAfterTraining(cats, c, n);
  }

  /** The same for a category the model does not know: the words are counted
      although the totals stay as they were, and the state is still
      consistent. */
  lemma TotalsUnknownCategory(table: WordTable, order: seq<string>, unique: set<string>,
                             cats: map<Category, CategoryStats>, examples: nat,
                             after: WordTable, order': seq<string>, added: set<string>, c: Category, n: nat)
    requires CountsInvariant(table, order, unique, cats, examples)
    requires TableValid(after, order') && after.Keys == unique + added
    requires Sum(CountsOf(after, c)) == Sum(CountsOf(table, c)) + n
    requires forall d :: d != c ==> Sum(CountsOf(after, d)) == Sum(CountsOf(table, d))
    requires c !in cats
    ensures CountsInvariant(after, order', unique + added, cats, examples)
  {
    forall d | d in cats ensures cats[d].wordCount == Sum(CountsOf(after, d)) {
      assert d != c;
    }
  }

  /** Training a text in a known category `c`: the counting state is
      consistent after the tokens are counted and `c` has one more text and as
      many more words as the text has tokens. */
  lemma TrainKnownCategory(table: WordTable, order: seq<string>, unique: set<string>,
                           cats: map<Category, CategoryStats>, examples: nat, c: Category, tokens: seq<string>, n: nat,
                           table': WordTable, order': seq<string>, unique': set<string>,
                           cats': map<Category, CategoryStats>, examples': nat)
    requires CountsInvariant(table, order, unique, cats, examples)
    requires c in cats && n == |tokens|
    requires table' == AddTokens(table, tokens, c) && order' == AppendNew(order, tokens)
    requires unique' == unique + Elements(tokens)
    requires cats' == CountText(cats, c, n) && examples' == examples + 1
    ensures CountsInvariant(table', order', unique', cats', examples')
  {
    AddTokensValid(table, order, tokens, c);
    AddTokensCounts(table, tokens, c);
    AddTokensSums(table, tokens, c);
    TotalsKnownCategory(table, order, unique, cats, examples, table', order', Elements(tokens), c, n);
  }

  /** Training a text in a category the model does not know: the tokens are
      counted, the totals stay as they were, and the state is consistent. */
  lemma TrainUnknownCategory(table: WordTable, order: seq<string>, unique: set<string>,
                             cats: map<Category, CategoryStats>, examples: nat, c: Category, tokens: seq<string>,
                             table': WordTable, order': seq<string>, unique': set<string>)
    requires CountsInvariant(table, order, unique, cats, examples)
    requires c !in cats
    requires table' == AddTokens(table, tokens, c) && order' == AppendNew(order, tokens)
    requires unique' == unique + Elements(tokens)
    ensures CountsInvariant(table', order', unique', cats, examples)
  {
    AddTokensValid(table, order, tokens, c);
    AddTokensCounts(table, tokens, c);
    AddTokensSums(table, tokens, c);
    TotalsUnknownCategory(table, order, unique, cats, examples, table', order', Elements(tokens), c, |tokens|);
  }

  class NaiveBayes {
    /** `words`: for each word, its number of occurrences in each category. */
    var words: WordTable
    /** The keys of `words` in insertion order (the iteration order of the dictionary). */
    var wordOrder: seq<string>
    /** The `'metric'` entry that `get_stat` writes into each word's record. */
    var metrics: map<string, real>
    /** `categories`: the document total and word total of each category. */
    var categories: map<Category, CategoryStats>
    /** The keys of `categories` in insertion order (the iteration order of the dictionary). */
    var categoryOrder: seq<Category>
    /** `training_examples`. */
    var trainingExamples: nat
    /** `unique_words`. */
    var uniqueWords: set<string>

    // -------------------------------------------------------------------------
    // The invariant

    /** The counting state: `wordOrder` lists each key of `words` once, every
        stored count is at least one, the keys of `words` are the unique words,
        each category's word total is the sum of its per-word counts, and the
        number of training texts is the sum of the per-category totals. */
    ghost predicate CountsValid()
      reads this`words, this`wordOrder, this`uniqueWords, this`categories, this`trainingExamples
    {
      CountsInvariant(words, wordOrder, uniqueWords, categories, trainingExamples)
    }

    /** Only known words carry a metric. */
    ghost predicate MetricsValid()
      reads this`words, this`metrics
    {
      metrics.Keys <= words.Keys
    }

    /** `categoryOrder` lists each category once. */
    ghost predicate CategoriesValid()
      reads this`categories, this`categoryOrder
    {
      Distinct(categoryOrder) && Elements(categoryOrder) == categories.Keys
    }

    /** The class invariant. */
    ghost predicate Valid()
      reads this
    {
      CountsValid() && MetricsValid() && CategoriesValid()
    }

    /** The counts the estimates read. */
    function Model(): Counts
      reads this`words, this`categories, this`uniqueWords
    {
      Counts(words, categories, |uniqueWords|)
    }

    /** The counts of a valid classifier are as training leaves them. */
    lemma ValidModel()
      requires Valid()
      ensures WellFormed(Model())
    {
    }

    // -------------------------------------------------------------------------
    // __init__ and train

    /** `__init__(categories)`: every given category starts with zero totals;
        the categories keep the order of their first occurrence. */
    constructor (cats: seq<Category>)
      ensures Valid()
      ensures categories.Keys == Elements(cats)
      ensures categoryOrder == AppendNew([], cats)
      ensures forall c :: c in categories ==> categories[c] == CategoryStats(0, 0)
      ensures words == map[] && wordOrder == [] && metrics == map[]
      ensures uniqueWords == {} && trainingExamples == 0
    {
      words := map[];
      wordOrder := [];
      metrics := map[];
      categories := map c | c in cats :: CategoryStats(0, 0);
      categoryOrder := AppendNew([], cats);
      trainingExamples := 0;
      uniqueWords := {};
      new;
      AppendNewDistinct([], cats);
      SumOfZeros(Totals(categories));
      forall c | c in categories ensures categories[c].wordCount == Sum(CountsOf(words, c)) {
        assert CountsOf(words, c) == map[];
      }
    }

    /** `_inc_word_freq(word, category)`: one more occurrence of `w` in `c`.
        Looking the word up in the `defaultdict` creates its record. */
    method IncWordFreq(w: string, c: Category)
      modifies this`words, this`wordOrder
      ensures words == AddToken(old(words), w, c)
      ensures wordOrder == if w in old(words) then old(wordOrder) else old(wordOrder) + [w]
    {
      var record := if w in words then words[w] else map[];
      if w !in words {
        wordOrder := wordOrder + [w];
      }
      if c in record && record[c] != 0 {
        words := words[w := record[c := record[c] + 1]];
      } else {
        words := words[w := record[c := 1]];
      }
    }

    /** `_inc_category_word_count(category, number)`: both branches of the
        function add `n` to the word total. */
    method IncCategoryWordCount(c: Category, n: nat)
      requires c in categories
      modifies this`categories
      ensures categories == old(categories)[c := old(categories[c]).(wordCount := old(categories[c].wordCount) + n)]
    {
      if categories[c].wordCount != 0 {
        categories := categories[c := categories[c].(wordCount := categories[c].wordCount + n)];
      } else {
        categories := categories[c := categories[c].(wordCount := n)];
      }
    }

    /** The second half of `train`: once the `tokens` of a text are counted
        into `words`, category `c` gets one more text and as many more words as
        there are tokens, and the number of training texts grows by one. An
        unknown category raises `KeyError` before anything changes. The counting
        state before the tokens were counted is given as `table`, `order` and
        `unique`. */
    method RecordText(c: Category, ghost tokens: seq<string>, n: nat,
                      ghost table: WordTable, ghost order: seq<string>, ghost unique: set<string>)
      returns (r: Result<()>)
      requires CountsInvariant(table, order, unique, categories, trainingExamples)
      requires words == AddTokens(table, tokens, c) && wordOrder == AppendNew(order, tokens)
      requires uniqueWords == unique + Elements(tokens) && n == |tokens|
      modifies this`categories, this`trainingExamples
      ensures CountsValid()
      ensures r.Success? <==> c in old(categories)
      ensures r.Failure? ==> r.error == KeyError
      ensures r.Success? ==> categories == CountText(old(categories), c, n)
      ensures r.Success? ==> trainingExamples == old(trainingExamples) + 1
      ensures r.Failure? ==> categories == old(categories) && trainingExamples == old(trainingExamples)
    {
      if c !in categories {
        TrainUnknownCategory(table, order, unique, categories, trainingExamples, c, tokens, words, wordOrder, uniqueWords);
        return Failure(KeyError);
      }
      categories := categories[c := categories[c].(total := categories[c].total + 1)];
      IncCategoryWordCount(c, n);
      trainingExamples := trainingExamples + 1;
      TrainKnownCategory(table, order, unique, old(categories), old(trainingExamples), c, tokens, n,
                         words, wordOrder, uniqueWords, categories, trainingExamples);
      r := Success(());
    }

    /** The loop of `train`: each token is added to the unique words and
        counted in category `c`, known or not. */
    method CountTokens(c: Category, tokens: seq<string>)
      requires TableValid(words, wordOrder)
      modifies this`words, this`wordOrder, this`uniqueWords
      ensures words == AddTokens(old(words), tokens, c)
      ensures wordOrder == AppendNew(old(wordOrder), tokens)
      ensures uniqueWords == old(uniqueWords) + Elements(tokens)
    {
      for i := 0 to |tokens|
        invariant words == AddTokens(old(words), tokens[..i], c)
        invariant wordOrder == AppendNew(old(wordOrder), tokens[..i])
        invariant uniqueWords == old(uniqueWords) + Elements(tokens[..i])
      {
        var w := tokens[i];
        assert tokens[..i + 1][..i] == tokens[..i];
        assert Elements(tokens[..i + 1]) == Elements(tokens[..i]) + {w};
        AddTokensValid(old(words), old(wordOrder), tokens[..i], c);
        assert w in words <==> w in wordOrder;
        uniqueWords := uniqueWords + {w};
        IncWordFreq(w, c);
      }
      assert tokens[..|tokens|] == tokens;
    }

    /** `train(category, text)`. The tokens are counted first; an unknown
        category then raises `KeyError`, leaving the word counts and the unique
        words updated but the totals untouched. */
    method Train(c: Category, text: string) returns (r: Result<()>)
      requires Valid()
      modifies this`words, this`wordOrder, this`uniqueWords, this`categories, this`trainingExamples
      ensures Valid()
      ensures r.Success? <==> c in old(categories)
      ensures r.Failure? ==> r.error == KeyError
      ensures words == AddTokens(old(words), Tokenize(text), c)
      ensures wordOrder == AppendNew(old(wordOrder), Tokenize(text))
      ensures uniqueWords == old(uniqueWords) + Elements(Tokenize(text))
      ensures r.Success? ==> categories == CountText(old(categories), c, |Tokenize(text)|)
      ensures r.Success? ==> trainingExamples == old(trainingExamples) + 1
      ensures r.Failure? ==> categories == old(categories) && trainingExamples == old(trainingExamples)
    {
      var tokens := Tokenize(text);
      CountTokens(c, tokens);
      r := RecordText(c, tokens, |tokens|, old(words), old(wordOrder), old(uniqueWords));
    }

    // -------------------------------------------------------------------------
    // The estimator and the decision rule

    /** `_get_predictors_probability(category, words)`. */
    method PredictorsProbability(c: Category, tokens: seq<string>, ln: real -> real) returns (r: Result<real>)
      ensures r.Success? <==> tokens == [] || CanEstimate(Model(), c)
      ensures r.Failure? ==> r.error == if c in categories then DivisionByZero else KeyError
      ensures r.Success? ==> r.value == LikelihoodBias + LogLikelihood(Model(), c, tokens, ln)
    {
      var model := Model();
      var likelihood := LikelihoodBias;
      for i := 0 to |tokens|
        invariant i == 0 || CanEstimate(model, c)
        invariant likelihood == LikelihoodBias + LogLikelihood(model, c, tokens[..i], ln)
      {
        var p := FeatureProbability(model, c, tokens[i]);
        if p.Failure? {
          return Failure(p.error);
        }
        assert tokens[..i + 1][..i] == tokens[..i];
        likelihood := likelihood + ln(p.value);
      }
      assert tokens[..|tokens|] == tokens;
      r := Success(likelihood);
    }

    /** `classify(text)`: the score of each category in dictionary order, then
        the comparison of categories 1 and 0. It changes nothing. */
    method Classify(text: string, ln: real -> real) returns (r: Result<Category>)
      requires CategoriesValid()
      ensures r == Decision(Model(), Tokenize(text), ln)
    {
      var model := Model();
      var tokens := Tokenize(text);
      var probabilities: map<Category, real> := map[];
      for i := 0 to |categoryOrder|
        invariant probabilities.Keys == Elements(categoryOrder[..i])
        invariant forall c :: c in probabilities ==>
                    c in categories && (tokens == [] || CanEstimate(model, c)) && probabilities[c] == Score(model, c, tokens, ln)
      {
        var c := categoryOrder[i];
        assert Elements(categoryOrder[..i + 1]) == Elements(categoryOrder[..i]) + {c};
        var categoryProb := CategoryProbability(categories[c].total);
        var likelihood := PredictorsProbability(c, tokens, ln);
        if likelihood.Failure? {
          return Failure(likelihood.error);
        }
        probabilities := probabilities[c := categoryProb + likelihood.value];
      }
      assert categoryOrder[..|categoryOrder|] == categoryOrder;
      if 1 !in probabilities || 0 !in probabilities {
        return Failure(KeyError);
      }
      r := Success(if probabilities[1] > probabilities[0] then 1 else 0);
    }

    // -------------------------------------------------------------------------
    // The word ranking

    /** `_collect_word_stat()`: stores the metric of each word, in dictionary
        order; a failure leaves the metrics of the words before it stored. */
    method CollectWordStat(ln: real -> real) returns (r: Result<()>)
      modifies this`metrics
      ensures r == CollectOutcome(Model(), wordOrder, ln)
      ensures metrics == Collected(Model(), wordOrder, old(metrics), ln)
    {
      var model := Model();
      if 1 !in categories || 0 !in categories {
        return Failure(KeyError);
      }
      for i := 0 to |wordOrder|
        invariant i <= DefinedPrefix(model, wordOrder, ln)
        invariant metrics == StoreMetrics(model, old(metrics), wordOrder[..i], ln)
      {
        var w := wordOrder[i];
        var m := WordMetric(model, w, ln);
        if m.Failure? {
          assert DefinedPrefix(model, wordOrder, ln) == i;
          return Failure(m.error);
        }
        assert wordOrder[..i + 1][..i] == wordOrder[..i];
        metrics := metrics[w := m.value];
      }
      assert wordOrder[..|wordOrder|] == wordOrder;
      r := Success(());
    }

    /** The pairs `get_stat` reads back once every word's metric is stored:
        each word with its metric, in dictionary order. */
    method StoredStat(model: Counts, ln: real -> real) returns (stat: seq<RankedWord>)
      requires forall i :: 0 <= i < |wordOrder| ==> WordMetric(model, wordOrder[i], ln).Success?
      requires forall w :: w in wordOrder ==> w in metrics && metrics[w] == WordMetric(model, w, ln).value
      ensures stat == StatList(model, wordOrder, ln)
    {
      stat := [];
      for i := 0 to |wordOrder|
        invariant stat == StatList(model, wordOrder[..i], ln)
      {
        var w := wordOrder[i];
        assert wordOrder[..i + 1][..i] == wordOrder[..i];
        stat := stat + [RankedWord(w, metrics[w])];
      }
      assert wordOrder[..|wordOrder|] == wordOrder;
    }

    /** `get_stat()`: the words with their metrics, by non-increasing metric,
        ties in dictionary order. */
    method GetStat(ln: real -> real) returns (r: Result<seq<RankedWord>>)
      requires Valid()
      modifies this`metrics
      ensures Valid()
      ensures metrics == Collected(Model(), wordOrder, old(metrics), ln)
      ensures r.Failure? <==> CollectOutcome(Model(), wordOrder, ln).Failure?
      ensures r.Failure? ==> r.error == CollectOutcome(Model(), wordOrder, ln).error
      ensures r.Success? ==> DefinedPrefix(Model(), wordOrder, ln) == |wordOrder|
      ensures r.Success? ==> r.value == SortByMetricDescending(StatList(Model(), wordOrder, ln))
    {
      var model := Model();
      var collected := CollectWordStat(ln);
      CollectedKeys(model, wordOrder, old(metrics), ln);
      if collected.Failure? {
        return Failure(collected.error);
      }
      CollectedMetrics(model, wordOrder, old(metrics), ln);
      var stat := StoredStat(model, ln);
      r := Success(SortByMetricDescending(stat));
    }
  }
}
