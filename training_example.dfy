/** A classifier used the way `spam_detect.py` uses it: categories 0 (ham) and
    1 (spam), one training text each, then one text to classify. The words of
    the text were seen only as spam, so it is spam for every increasing
    logarithm.
 */
module TrainingExample {
  import opened WordTables
  import opened Tokenizer
  import opened Estimator
  import opened NaiveBayesModel

  const SpamText := "special offer special offer"
  const HamText := "meeting notes meeting agenda"
  const UnknownText := "special special offer"

  /** The words of the three texts are lower-case and longer than three
      characters, so each is a token of its own. */
  lemma ExampleWord(w: string)
    requires w in ["special", "offer", "meeting", "notes", "agenda"]
    ensures Tokenize(w) == [w]
  {
    TokenizeLowerWord(w);
  }

  /** Three words that are each a token, separated by single spaces. */
  lemma ThreeWords(a: string, b: string, c: string)
    requires Tokenize(a) == [a] && Tokenize(b) == [b] && Tokenize(c) == [c]
    ensures Tokenize(a + [' '] + (b + [' '] + c)) == [a, b, c]
  {
    TokenizeSplit(a, ' ', b + [' '] + c);
    TokenizeSplit(b, ' ', c);
  }

  /** Four words that are each a token, separated by single spaces. */
  lemma FourWords(a: string, b: string, c: string, d: string)
    requires Tokenize(a) == [a] && Tokenize(b) == [b] && Tokenize(c) == [c] && Tokenize(d) == [d]
    ensures Tokenize(a + [' '] + (b + [' '] + (c + [' '] + d))) == [a, b, c, d]
  {
    TokenizeSpaced(a, b, c, d);
  }

  lemma SpamTextTokens()
    ensures Tokenize(SpamText) == ["special", "offer", "special", "offer"]
  {
    assert SpamText == "special" + [' '] + ("offer" + [' '] + ("special" + [' '] + "offer"));
    ExampleWord("special");
    ExampleWord("offer");
    FourWords("special", "offer", "special", "offer");
  }

  lemma HamTextTokens()
    ensures Tokenize(HamText) == ["meeting", "notes", "meeting", "agenda"]
  {
    assert HamText == "meeting" + [' '] + ("notes" + [' '] + ("meeting" + [' '] + "agenda"));
    ExampleWord("meeting");
    ExampleWord("notes");
    ExampleWord("agenda");
    FourWords("meeting", "notes", "meeting", "agenda");
  }

  lemma UnknownTextTokens()
    ensures Tokenize(UnknownText) == ["special", "special", "offer"]
  {
    assert UnknownText == "special" + [' '] + ("special" + [' '] + "offer");
    ExampleWord("special");
    ExampleWord("offer");
    ThreeWords("special", "special", "offer");
  }

  /** Training `[a, b, a, b]` as spam and then `ham` as ham, where neither `a`
      nor `b` is a ham token: each of `a` and `b` is seen twice as spam and
      never as ham. */
  lemma TrainedCounts(a: string, b: string, ham: seq<string>)
    requires a != b && a !in ham && b !in ham
    ensures var table := AddTokens(AddTokens(map[], [a, b, a, b], 1), ham, 0);
            && CountOf(table, a, 1) == 2 && CountOf(table, b, 1) == 2
            && CountOf(table, a, 0) == 0 && CountOf(table, b, 0) == 0
  {
    var spam := [a, b, a, b];
    AddTokensCounts(map[], spam, 1);
    AddTokensCounts(AddTokens(map[], spam, 1), ham, 0);
    assert multiset(spam)[a] == 2 && multiset(spam)[b] == 2;
    assert multiset(ham)[a] == 0 && multiset(ham)[b] == 0;
  }

  /** "special" and "offer" are two words that the ham text does not contain. */
  lemma SpamWordsNotHam()
    ensures "special" != "offer"
    ensures "special" !in ["meeting", "notes", "meeting", "agenda"]
    ensures "offer" !in ["meeting", "notes", "meeting", "agenda"]
  {
    assert "special"[0] == 's' && "offer"[0] == 'o';
    assert "meeting"[0] == 'm' && "notes"[0] == 'n' && "agenda"[0] == 'a';
  }

  /** With both categories trained to the same number of words, a text made of
      words seen twice as spam and never as ham is spam. */
  lemma SpamWordsDecide(m: Counts, a: string, b: string, ln: real -> real)
    requires Increasing(ln) && WellFormed(m)
    requires 0 in m.categories && 1 in m.categories
    requires m.categories[0].wordCount == m.categories[1].wordCount
    requires CountOf(m.words, a, 1) == 2 && CountOf(m.words, b, 1) == 2
    requires CountOf(m.words, a, 0) == 0 && CountOf(m.words, b, 0) == 0
    ensures Decision(m, [a, a, b], ln) == Success(1)
  {
    var tokens := [a, a, b];
    assert forall i :: 0 <= i < |tokens| ==> tokens[i] == a || tokens[i] == b;
    assert FavoursSpam(m, tokens, 0);
    assert a in m.words;
    DecisionByWordCounts(m, tokens, ln);
  }

  /** Counts trained from the spam text and then the ham text, with both
      categories trained to the same number of words, classify the unknown
      text as spam. */
  lemma UnknownTextIsSpam(m: Counts, ln: real -> real)
    requires Increasing(ln) && WellFormed(m)
    requires m.words == AddTokens(AddTokens(map[], Tokenize(SpamText), 1), Tokenize(HamText), 0)
    requires 0 in m.categories && 1 in m.categories
    requires m.categories[0].wordCount == m.categories[1].wordCount
    ensures Decision(m, Tokenize(UnknownText), ln) == Success(1)
  {
    SpamTextTokens();
    HamTextTokens();
    UnknownTextTokens();
    SpamWordsNotHam();
    TrainedCounts("special", "offer", Tokenize(HamText));
    SpamWordsDecide(m, "special", "offer", ln);
  }

  /** `NaiveBayes([0, 1])`, `train(1, SpamText)`, `train(0, HamText)`, then
      `classify(UnknownText)`: the text is classified as spam. */
  method ClassifyAfterTraining(ln: real -> real) returns (r: Result<Category>)
    requires Increasing(ln)
    ensures r == Success(1)
  {
    var classifier := new NaiveBayes([0, 1]);
    assert 0 in Elements([0, 1]) && 1 in Elements([0, 1]);
    SpamTextTokens();
    HamTextTokens();
    ghost var untrained := classifier.categories;
    var trained := classifier.Train(1, SpamText);
    ghost var afterSpam := classifier.categories;
    CountTextEffect(untrained, 1, 4);
    trained := classifier.Train(0, HamText);
    CountTextEffect(afterSpam, 0, 4);
    classifier.ValidModel();
    UnknownTextIsSpam(classifier.Model(), ln);
    r := classifier.Classify(UnknownText, ln);
  }
}
