/** The ordering step of `get_stat`: `sorted(stat, key=itemgetter(1), reverse=True)`.

    The sort is stable, also when reversed: pairs with equal metrics keep the
    order they had in the input. It is modelled as an insertion sort that puts
    each later pair after every earlier pair whose metric is at least as large.
 */
module Ranking {

  /** One `(word, metric)` pair of the ranking. */
  datatype RankedWord = RankedWord(word: string, metric: real)

  /** Metrics never increase from left to right. */
  predicate SortedDescending(s: seq<RankedWord>) {
    forall i, j :: 0 <= i < j < |s| ==> s[i].metric >= s[j].metric
  }

  /** The pairs of `s` whose metric is `m`, in their order in `s`. */
  function WithMetric(s: seq<RankedWord>, m: real): seq<RankedWord> {
    if s == [] then []
    else (if s[0].metric == m then [s[0]] else []) + WithMetric(s[1..], m)
  }

  /** Places `x` after every leading pair whose metric is at least `x.metric`. */
  function Insert(x: RankedWord, s: seq<RankedWord>): seq<RankedWord> {
    if s == [] then [x]
    else if s[0].metric >= x.metric then [s[0]] + Insert(x, s[1..])
    else [x] + s
  }

  /** The stable descending sort of `s` by metric. */
  function SortByMetricDescending(s: seq<RankedWord>): seq<RankedWord> {
    if s == [] then []
    else Insert(s[|s| - 1], SortByMetricDescending(s[..|s| - 1]))
  }

  // ---------------------------------------------------------------------------
  // Insertion keeps the order, adds exactly one element, and appends `x` to the
  // pairs of its own metric.

  lemma {:induction false} InsertBounded(x: RankedWord, s: seq<RankedWord>, bound: real)
    requires x.metric <= bound
    requires forall k :: 0 <= k < |s| ==> s[k].metric <= bound
    ensures forall k :: 0 <= k < |Insert(x, s)| ==> Insert(x, s)[k].metric <= bound
    decreases |s|
  {
    if s != [] && s[0].metric >= x.metric {
      InsertBounded(x, s[1..], bound);
    }
  }

  lemma {:induction false} InsertSorted(x: RankedWord, s: seq<RankedWord>)
    requires SortedDescending(s)
    ensures SortedDescending(Insert(x, s))
    decreases |s|
  {
    if s != [] && s[0].metric >= x.metric {
      InsertSorted(x, s[1..]);
      InsertBounded(x, s[1..], s[0].metric);
    }
  }

  lemma {:induction false} InsertPermutes(x: RankedWord, s: seq<RankedWord>)
    ensures multiset(Insert(x, s)) == multiset(s) + multiset{x}
    decreases |s|
  {
    if s != [] && s[0].metric >= x.metric {
      InsertPermutes(x, s[1..]);
      assert s == [s[0]] + s[1..];
    }
  }

  lemma {:induction false} NoneWithMetric(s: seq<RankedWord>, m: real)
    requires forall k :: 0 <= k < |s| ==> s[k].metric < m
    ensures WithMetric(s, m) == []
    decreases |s|
  {
    if s != [] {
      NoneWithMetric(s[1..], m);
    }
  }

  lemma {:induction false} WithMetricAppend(a: seq<RankedWord>, b: seq<RankedWord>, m: real)
    ensures WithMetric(a + b, m) == WithMetric(a, m) + WithMetric(b, m)
    decreases |a|
  {
    if a == [] {
      assert a + b == b;
    } else {
      assert (a + b)[1..] == a[1..] + b;
      WithMetricAppend(a[1..], b, m);
    }
  }

  lemma {:induction false} InsertWithMetric(x: RankedWord, s: seq<RankedWord>, m: real)
    requires SortedDescending(s)
    ensures WithMetric(Insert(x, s), m) == WithMetric(s, m) + WithMetric([x], m)
    decreases |s|
  {
    assert [x][1..] == [];
    if s == [] {
    } else if s[0].metric >= x.metric {
      InsertWithMetric(x, s[1..], m);
      assert ([s[0]] + Insert(x, s[1..]))[1..] == Insert(x, s[1..]);
    } else {
      assert ([x] + s)[1..] == s;
      if x.metric == m {
        NoneWithMetric(s, m);
      }
    }
  }

  // ---------------------------------------------------------------------------
  // The three properties of the sort.

  /** The ranking is ordered by non-increasing metric. */
  lemma {:induction false} SortIsDescending(s: seq<RankedWord>)
    ensures SortedDescending(SortByMetricDescending(s))
    decreases |s|
  {
    if s != [] {
      SortIsDescending(s[..|s| - 1]);
      InsertSorted(s[|s| - 1], SortByMetricDescending(s[..|s| - 1]));
    }
  }

  /** The ranking holds exactly the input pairs, each as often as in the input. */
  lemma {:induction false} SortIsPermutation(s: seq<RankedWord>)
    ensures multiset(SortByMetricDescending(s)) == multiset(s)
    decreases |s|
  {
    if s != [] {
      var init, last := s[..|s| - 1], s[|s| - 1];
      SortIsPermutation(init);
      InsertPermutes(last, SortByMetricDescending(init));
      assert s == init + [last];
    }
  }

  /** The sort is stable: the pairs of any one metric appear in the ranking in
      the same order as in the input. */
  lemma {:induction false} SortIsStable(s: seq<RankedWord>, m: real)
    ensures WithMetric(SortByMetricDescending(s), m) == WithMetric(s, m)
    decreases |s|
  {
    if s != [] {
      var init, last := s[..|s| - 1], s[|s| - 1];
      SortIsDescending(init);
      SortIsStable(init, m);
      InsertWithMetric(last, SortByMetricDescending(init), m);
      assert s == init + [last];
      WithMetricAppend(init, [last], m);
    }
  }

  /** Sorting an already ranked sequence changes nothing. */
  lemma {:induction false} SortOfSorted(s: seq<RankedWord>)
    requires SortedDescending(s)
    ensures SortByMetricDescending(s) == s
    decreases |s|
  {
    if s != [] {
      var init, last := s[..|s| - 1], s[|s| - 1];
      SortOfSorted(init);
      AppendLeast(last, init);
      assert s == init + [last];
    }
  }

  lemma {:induction false} AppendLeast(x: RankedWord, s: seq<RankedWord>)
    requires forall k :: 0 <= k < |s| ==> s[k].metric >= x.metric
    ensures Insert(x, s) == s + [x]
    decreases |s|
  {
    if s != [] {
      AppendLeast(x, s[1..]);
      assert s == [s[0]] + s[1..];
    }
  }

  /** Sorting twice is sorting once. */
  lemma SortIdempotent(s: seq<RankedWord>)
    ensures SortByMetricDescending(SortByMetricDescending(s)) == SortByMetricDescending(s)
  {
    SortIsDescending(s);
    SortOfSorted(SortByMetricDescending(s));
  }
}
