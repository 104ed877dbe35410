/** The tokenizer of the classifier (`tokenize_text`).

    A text is cut into the maximal runs of the character class `[\w']`, every
    run is lower-cased, and runs of at most `ShortTokenLength` characters are
    dropped. Order and duplicates are kept.

    The character class and lower-casing are modelled on ASCII: letters,
    digits, underscore and the apostrophe are word characters, and only
    'A'..'Z' change under lower-casing.
 */
module Tokenizer {

  /** Tokens of at most this many characters are dropped. */
  const ShortTokenLength: nat := 3

  /** Membership in the class `[\w']`. */
  predicate IsWordChar(ch: char) {
    ('a' <= ch <= 'z') || ('A' <= ch <= 'Z') || ('0' <= ch <= '9') || ch == '_' || ch == '\''
  }

  predicate IsUpperChar(ch: char) {
    'A' <= ch <= 'Z'
  }

  /** Every character of `s` is a word character. */
  predicate IsWord(s: string) {
    forall i :: 0 <= i < |s| ==> IsWordChar(s[i])
  }

  /** No character of `s` is an upper-case letter. */
  predicate IsLower(s: string) {
    forall i :: 0 <= i < |s| ==> !IsUpperChar(s[i])
  }

  /** `s` holds no word character at all. */
  predicate HasNoWordChar(s: string) {
    forall i :: 0 <= i < |s| ==> !IsWordChar(s[i])
  }

  function LowerChar(ch: char): (r: char)
    ensures !IsUpperChar(r)
    ensures IsWordChar(r) == IsWordChar(ch)
    ensures !IsUpperChar(ch) ==> r == ch
  {
    if IsUpperChar(ch) then (ch as int - 'A' as int + 'a' as int) as char else ch
  }

  /** `str.lower` on one token. */
  function Lower(s: string): string {
    seq(|s|, i requires 0 <= i < |s| => LowerChar(s[i]))
  }

  /** Lower-casing keeps the length and the word characters, and leaves no
      upper-case letter behind. */
  lemma LowerProperties(s: string)
    ensures |Lower(s)| == |s|
    ensures IsLower(Lower(s))
    ensures IsWord(s) ==> IsWord(Lower(s))
    ensures IsLower(s) ==> Lower(s) == s
  {
  }

  /** Length of the longest prefix of `s` made of word characters. */
  function RunLength(s: string): (n: nat)
    ensures n <= |s|
    ensures IsWord(s[..n])
    ensures n < |s| ==> !IsWordChar(s[n])
  {
    if s == [] || !IsWordChar(s[0]) then 0 else 1 + RunLength(s[1..])
  }

  /** `re.findall(r"[\w']+", s)`: the maximal runs of word characters, left to right. */
  function FindRuns(s: string): (runs: seq<string>)
    ensures forall r :: r in runs ==> r != [] && IsWord(r)
    decreases |s|
  {
    if s == [] then []
    else if !IsWordChar(s[0]) then FindRuns(s[1..])
    else
      var n := RunLength(s);
      [s[..n]] + FindRuns(s[n..])
  }

  /** `map(lambda w: w.lower(), runs)`. */
  function LowerAll(runs: seq<string>): seq<string> {
    seq(|runs|, i requires 0 <= i < |runs| => Lower(runs[i]))
  }

  /** `filter(lambda w: len(w) > 3, words)`. */
  function KeepLong(words: seq<string>): seq<string> {
    if words == [] then []
    else (if |words[0]| > ShortTokenLength then [words[0]] else []) + KeepLong(words[1..])
  }

  /** `tokenize_text`. */
  function Tokenize(text: string): seq<string> {
    KeepLong(LowerAll(FindRuns(text)))
  }

  /** The filter keeps exactly the words longer than the cut-off. */
  lemma {:induction false} KeepLongMembers(words: seq<string>)
    ensures forall t :: t in KeepLong(words) <==> t in words && |t| > ShortTokenLength
  {
    if words != [] {
      KeepLongMembers(words[1..]);
      assert words == [words[0]] + words[1..];
    }
  }

  /** Every token is longer than the cut-off, made of word characters and
      lower case; and every such lower-cased run is a token. */
  lemma TokenizeWellFormed(text: string)
    ensures forall t :: t in Tokenize(text) ==> |t| > ShortTokenLength && IsWord(t) && IsLower(t)
    ensures forall i :: 0 <= i < |FindRuns(text)| && |FindRuns(text)[i]| > ShortTokenLength ==>
              Lower(FindRuns(text)[i]) in Tokenize(text)
  {
    var runs := FindRuns(text);
    var lowered := LowerAll(runs);
    KeepLongMembers(lowered);
    forall t | t in lowered ensures IsWord(t) && IsLower(t) {
      var i :| 0 <= i < |lowered| && lowered[i] == t;
      assert runs[i] in runs;
      LowerProperties(runs[i]);
    }
    forall i | 0 <= i < |runs| && |runs[i]| > ShortTokenLength ensures Lower(runs[i]) in Tokenize(text) {
      LowerProperties(runs[i]);
      assert lowered[i] == Lower(runs[i]);
    }
  }

  // ---------------------------------------------------------------------------
  // How the runs are found: a word is one run, and a separator splits the text.
  // Together these determine `FindRuns` on every text.

  lemma {:induction false} RunLengthOfWord(w: string, rest: string)
    requires IsWord(w)
    requires rest == [] || !IsWordChar(rest[0])
    ensures RunLength(w + rest) == |w|
    decreases |w|
  {
    if w != [] {
      assert (w + rest)[1..] == w[1..] + rest;
      RunLengthOfWord(w[1..], rest);
    }
  }

  lemma {:induction false} RunLengthPrefix(a: string, rest: string)
    requires RunLength(a) < |a|
    ensures RunLength(a + rest) == RunLength(a)
    decreases |a|
  {
    if IsWordChar(a[0]) {
      assert (a + rest)[1..] == a[1..] + rest;
      RunLengthPrefix(a[1..], rest);
    }
  }

  /** A non-empty word is found as a single run. */
  lemma FindRunsOfWord(w: string)
    requires w != [] && IsWord(w)
    ensures FindRuns(w) == [w]
  {
    RunLengthOfWord(w, []);
    assert w + [] == w;
    assert w[|w|..] == [];
  }

  /** A text without word characters has no runs. */
  lemma {:induction false} FindRunsOfSeparators(s: string)
    requires HasNoWordChar(s)
    ensures FindRuns(s) == []
    decreases |s|
  {
    if s != [] {
      FindRunsOfSeparators(s[1..]);
    }
  }

  /** A separator character splits the text: the runs on each side are found
      independently and in order. */
  lemma {:induction false} FindRunsSplit(a: string, sep: char, b: string)
    requires !IsWordChar(sep)
    ensures FindRuns(a + [sep] + b) == FindRuns(a) + FindRuns(b)
    decreases |a|, 1
  {
    var s := a + [sep] + b;
    if a == [] {
      assert s == [sep] + b;
      assert s[1..] == b;
    } else if !IsWordChar(a[0]) {
      assert s[1..] == a[1..] + [sep] + b;
      FindRunsSplit(a[1..], sep, b);
    } else {
      FindRunsSplitAtRun(a, sep, b);
    }
  }

  /** The step of `FindRunsSplit` for a text that starts with a run. */
  lemma {:induction false} FindRunsSplitAtRun(a: string, sep: char, b: string)
    requires !IsWordChar(sep) && a != [] && IsWordChar(a[0])
    ensures FindRuns(a + [sep] + b) == FindRuns(a) + FindRuns(b)
    decreases |a|, 0
  {
    var s := a + [sep] + b;
    var n := RunLength(a);
    if n == |a| {
      RunLengthOfWord(a, [sep] + b);
      assert s == a + ([sep] + b);
      assert s[..n] == a;
      assert s[n..] == [sep] + b;
      assert ([sep] + b)[1..] == b;
      assert a[..n] == a;
      assert a[n..] == [];
    } else {
      RunLengthPrefix(a, [sep] + b);
      assert s == a + ([sep] + b);
      assert s[..n] == a[..n];
      assert s[n..] == a[n..] + [sep] + b;
      FindRunsSplit(a[n..], sep, b);
    }
  }

  // ---------------------------------------------------------------------------
  // The same facts lifted to `Tokenize`.

  lemma {:induction false} KeepLongAppend(x: seq<string>, y: seq<string>)
    ensures KeepLong(x + y) == KeepLong(x) + KeepLong(y)
    decreases |x|
  {
    if x != [] {
      var head := if |x[0]| > ShortTokenLength then [x[0]] else [];
      assert (x + y)[0] == x[0];
      assert (x + y)[1..] == x[1..] + y;
      calc {
        KeepLong(x + y);
        head + KeepLong(x[1..] + y);
        { KeepLongAppend(x[1..], y); }
        head + (KeepLong(x[1..]) + KeepLong(y));
        (head + KeepLong(x[1..])) + KeepLong(y);
        KeepLong(x) + KeepLong(y);
      }
    } else {
      assert x + y == y;
    }
  }

  lemma LowerAllAppend(x: seq<string>, y: seq<string>)
    ensures LowerAll(x + y) == LowerAll(x) + LowerAll(y)
  {
  }

  /** Tokens of the two sides of a separator, in order, duplicates kept. */
  lemma TokenizeSplit(a: string, sep: char, b: string)
    requires !IsWordChar(sep)
    ensures Tokenize(a + [sep] + b) == Tokenize(a) + Tokenize(b)
  {
    FindRunsSplit(a, sep, b);
    LowerAllAppend(FindRuns(a), FindRuns(b));
    KeepLongAppend(LowerAll(FindRuns(a)), LowerAll(FindRuns(b)));
  }

  /** A single word gives its lower-cased self when long enough, and nothing
      otherwise. */
  lemma TokenizeWord(w: string)
    requires w != [] && IsWord(w)
    ensures Tokenize(w) == if |w| > ShortTokenLength then [Lower(w)] else []
  {
    FindRunsOfWord(w);
    LowerProperties(w);
    var lw := Lower(w);
    assert LowerAll(FindRuns(w)) == [lw];
    assert KeepLong([lw]) == (if |lw| > ShortTokenLength then [lw] else []) + KeepLong([]) by {
      assert [lw][1..] == [];
    }
  }

  /** Text with no word character (the empty text among it) has no tokens. */
  lemma TokenizeNoWords(s: string)
    requires HasNoWordChar(s)
    ensures Tokenize(s) == []
  {
    FindRunsOfSeparators(s);
  }

  /** An already lower-case word longer than the cut-off is its own single token. */
  lemma TokenizeLowerWord(w: string)
    requires IsWord(w) && IsLower(w) && |w| > ShortTokenLength
    ensures Tokenize(w) == [w]
  {
    TokenizeWord(w);
    LowerProperties(w);
  }

  /** Words of at most three letters are dropped. */
  lemma ExampleShortWords()
    ensures Tokenize("The") == [] && Tokenize("fox") == []
  {
    TokenizeWord("The");
    TokenizeWord("fox");
  }

  /** A capitalised word is lower-cased. */
  lemma ExampleCapitalised()
    ensures Tokenize("Quick") == ["quick"]
  {
    TokenizeWord("Quick");
    assert Lower("Quick") == "quick" by {
      assert Lower("Quick")[0] == 'q';
    }
  }

  /** A lower-case word longer than three letters is kept as it is. */
  lemma ExampleLowerWord()
    ensures Tokenize("jumped") == ["jumped"]
  {
    TokenizeLowerWord("jumped");
  }

  /** Short words are dropped and the rest lower-cased, in text order. */
  lemma TokenizeExample()
    ensures Tokenize("The Quick fox jumped") == ["quick", "jumped"]
  {
    assert "The Quick fox jumped" == "The" + [' '] + ("Quick" + [' '] + ("fox" + [' '] + "jumped"));
    ExampleShortWords();
    ExampleCapitalised();
    ExampleLowerWord();
    TokenizeSpaced("The", "Quick", "fox", "jumped");
  }

  /** Tokenizing four words separated by spaces tokenizes each word. */
  lemma TokenizeSpaced(a: string, b: string, c: string, d: string)
    ensures Tokenize(a + [' '] + (b + [' '] + (c + [' '] + d)))
         == Tokenize(a) + (Tokenize(b) + (Tokenize(c) + Tokenize(d)))
  {
    TokenizeSplit(a, ' ', b + [' '] + (c + [' '] + d));
    TokenizeSplit(b, ' ', c + [' '] + d);
    TokenizeSplit(c, ' ', d);
  }
}
