/** The `words` dictionary of the classifier as a value: for each word, how
    often it occurred in each category, together with the order in which the
    words were first inserted (the iteration order of a Python dictionary).

    Training is one `AddToken` per token; the lemmas say what a whole text of
    tokens does to the counts, to the per-category sums and to the key order.
 */
module WordTables {
  import opened MapSums

  /** A category label (the classifier uses 0 for ham and 1 for spam). */
  type Category = int

  /** Per word, the count of each category in which it occurred. */
  type WordTable = map<string, map<Category, nat>>

  /** The elements of a sequence, as a set. */
  function Elements<T(==)>(s: seq<T>): set<T> {
    set t | t in s
  }

  /** `order` followed by the elements of `tokens` it does not hold yet, in
      order of first occurrence: how the keys of a dictionary grow. */
  function AppendNew<T(==)>(order: seq<T>, tokens: seq<T>): seq<T> {
    if tokens == [] then order
    else
      var prev := AppendNew(order, tokens[..|tokens| - 1]);
      var t := tokens[|tokens| - 1];
      if t in prev then prev else prev + [t]
  }

  /** `words[w][c]`, or 0 when the word or the pair was never seen. */
  function CountOf(table: WordTable, w: string, c: Category): nat {
    if w in table && c in table[w] then table[w][c] else 0
  }

  /** The counts of category `c`, word by word. */
  ghost function CountsOf(table: WordTable, c: Category): map<string, nat> {
    map w | w in table :: CountOf(table, w, c)
  }

  /** `order` lists every key of `table` exactly once, and every stored count
      is at least one. */
  ghost predicate TableValid(table: WordTable, order: seq<string>) {
    && table.Keys == Elements(order)
    && Distinct(order)
    && (forall w, c :: w in table && c in table[w] ==> table[w][c] >= 1)
  }

  /** No element occurs twice. */
  ghost predicate Distinct<T>(s: seq<T>) {
    forall i, j :: 0 <= i < j < |s| ==> s[i] != s[j]
  }

  /** One more occurrence of `w` in category `c`; a word seen for the first
      time gets a record of its own. */
  function AddToken(table: WordTable, w: string, c: Category): WordTable {
    var record := if w in table then table[w] else map[];
    table[w := record[c := CountOf(table, w, c) + 1]]
  }

  /** One `AddToken` per token, in order. */
  function AddTokens(table: WordTable, tokens: seq<string>, c: Category): WordTable {
    if tokens == [] then table
    else AddToken(AddTokens(table, tokens[..|tokens| - 1], c), tokens[|tokens| - 1], c)
  }

  /** `AppendNew` keeps a sequence free of duplicates and adds exactly the new
      elements. */
  lemma {:induction false} AppendNewDistinct<T>(order: seq<T>, tokens: seq<T>)
    requires Distinct(order)
    ensures Distinct(AppendNew(order, tokens))
    ensures Elements(AppendNew(order, tokens)) == Elements(order) + Elements(tokens)
  {
    if tokens != [] {
      var init, last := tokens[..|tokens| - 1], tokens[|tokens| - 1];
      AppendNewDistinct(order, init);
      assert tokens == init + [last];
      assert Elements(tokens) == Elements(init) + {last};
      var prev := AppendNew(order, init);
      if last !in prev {
        assert Elements(prev + [last]) == Elements(prev) + {last};
      }
    }
  }

  // ---------------------------------------------------------------------------
  // One token

  /** `AddToken` adds `w` to the keys and one to the count of `(w, c)`, and
      changes no other count. */
  lemma AddTokenCounts(table: WordTable, w: string, c: Category)
    ensures AddToken(table, w, c).Keys == table.Keys + {w}
    ensures forall v, d :: CountOf(AddToken(table, w, c), v, d) == CountOf(table, v, d) + (if v == w && d == c then 1 else 0)
  {
  }

  /** One more occurrence of `w` in category `c` adds one to the total of `c`
      and leaves the totals of the other categories alone. */
  lemma AddTokenSums(table: WordTable, w: string, c: Category)
    ensures forall d :: Sum(CountsOf(AddToken(table, w, c), d)) == Sum(CountsOf(table, d)) + (if d == c then 1 else 0)
  {
    var after := AddToken(table, w, c);
    AddTokenCounts(table, w, c);
    forall d ensures Sum(CountsOf(after, d)) == Sum(CountsOf(table, d)) + (if d == c then 1 else 0) {
      var m := CountsOf(table, d);
      var v := CountOf(table, w, d) + (if d == c then 1 else 0);
      assert CountsOf(after, d) == m[w := v];
      SumUpdate(m, w, v);
    }
  }

  /** A new word goes to the end of the key order; counts stay positive. */
  lemma AddTokenValid(table: WordTable, order: seq<string>, w: string, c: Category)
    requires TableValid(table, order)
    ensures TableValid(AddToken(table, w, c), if w in table then order else order + [w])
  {
    if w !in table {
      assert Elements(order + [w]) == Elements(order) + {w};
    }
  }

  // ---------------------------------------------------------------------------
  // A whole text

  /** Counting the tokens of a text in category `c` adds each token to the keys
      and adds to each count of `c` the number of occurrences of the word among
      the tokens; the counts of every other category stay as they were. */
  lemma {:induction false} AddTokensCounts(table: WordTable, tokens: seq<string>, c: Category)
    ensures AddTokens(table, tokens, c).Keys == table.Keys + Elements(tokens)
    ensures forall v, d :: CountOf(AddTokens(table, tokens, c), v, d) == CountOf(table, v, d) + (if d == c then multiset(tokens)[v] else 0)
  {
    if tokens != [] {
      var init, last := tokens[..|tokens| - 1], tokens[|tokens| - 1];
      AddTokensCounts(table, init, c);
      AddTokenCounts(AddTokens(table, init, c), last, c);
      assert tokens == init + [last];
      assert Elements(tokens) == Elements(init) + {last};
    }
  }

  /** Each token adds one to the word total of `c`, and to no other total. */
  lemma {:induction false} AddTokensSums(table: WordTable, tokens: seq<string>, c: Category)
    ensures Sum(CountsOf(AddTokens(table, tokens, c), c)) == Sum(CountsOf(table, c)) + |tokens|
    ensures forall d :: d != c ==> Sum(CountsOf(AddTokens(table, tokens, c), d)) == Sum(CountsOf(table, d))
  {
    if tokens != [] {
      var init, last := tokens[..|tokens| - 1], tokens[|tokens| - 1];
      AddTokensSums(table, init, c);
      AddTokenSums(AddTokens(table, init, c), last, c);
    }
  }

  /** The key order grows by the new words in order of first occurrence, and
      the table stays well formed. */
  lemma {:induction false} AddTokensValid(table: WordTable, order: seq<string>, tokens: seq<string>, c: Category)
    requires TableValid(table, order)
    ensures TableValid(AddTokens(table, tokens, c), AppendNew(order, tokens))
  {
    if tokens != [] {
      var init, last := tokens[..|tokens| - 1], tokens[|tokens| - 1];
      var prev := AddTokens(table, init, c);
      AddTokensValid(table, order, init, c);
      AddTokenValid(prev, AppendNew(order, init), last, c);
      assert last in prev <==> last in AppendNew(order, init);
    }
  }
}
