/** The counting that underlies both vectors: how often a word occurs among
    the tokens of a text, how many (token, category word) pairs are equal,
    and the sums of those counts. These are the reference definitions the
    vectorizer and classifier methods are proved against. */
module Counting {

  /** Number of positions of `ws` holding exactly `w`. */
  function Occurrences(ws: seq<string>, w: string): (n: nat)
    ensures n <= |ws|
    ensures n == 0 <==> w !in ws
  {
    if ws == [] then 0
    else
      var init := ws[..|ws| - 1];
      assert ws == init + [ws[|ws| - 1]];
      Occurrences(init, w) + (if ws[|ws| - 1] == w then 1 else 0)
  }

  /** Number of (token, category word) pairs that are equal: for every token,
      how many entries of `category` equal it, summed over the tokens. */
  function Matches(tokens: seq<string>, category: seq<string>): (n: nat)
    ensures n == 0 <==> forall k :: 0 <= k < |tokens| ==> tokens[k] !in category
  {
    if tokens == [] then 0
    else
      var init := tokens[..|tokens| - 1];
      assert forall k :: 0 <= k < |init| ==> init[k] == tokens[k];
      Matches(init, category) + Occurrences(category, tokens[|tokens| - 1])
  }

  /** The count vector of `tokens` against a reference word list: entry `i`
      counts the tokens equal to `words[i]`. */
  function CountVector(tokens: seq<string>, words: seq<string>): seq<int>
  {
    seq(|words|, i requires 0 <= i < |words| => Occurrences(tokens, words[i]))
  }

  /** Sum of the entries of a vector (Python's `sum`). */
  function Sum(v: seq<int>): int
  {
    if v == [] then 0 else Sum(v[..|v| - 1]) + v[|v| - 1]
  }

  /** No word occurs twice. */
  predicate Distinct(ws: seq<string>)
  {
    forall i, j :: 0 <= i < j < |ws| ==> ws[i] != ws[j]
  }

  /** One more element on the right adds its own match. */
  lemma OccurrencesOfPrefix(ws: seq<string>, i: nat, w: string)
    requires i < |ws|
    ensures Occurrences(ws[..i + 1], w) == Occurrences(ws[..i], w) + (if ws[i] == w then 1 else 0)
  {
    assert ws[..i + 1][..i] == ws[..i];
  }

  /** One more token on the right adds its matches against the category. */
  lemma MatchesOfPrefix(tokens: seq<string>, i: nat, category: seq<string>)
    requires i < |tokens|
    ensures Matches(tokens[..i + 1], category) == Matches(tokens[..i], category) + Occurrences(category, tokens[i])
  {
    assert tokens[..i + 1][..i] == tokens[..i];
  }

  /** Counting in a concatenation counts in each part. */
  lemma {:induction false} OccurrencesAppend(a: seq<string>, b: seq<string>, w: string)
    ensures Occurrences(a + b, w) == Occurrences(a, w) + Occurrences(b, w)
    decreases |b|
  {
    if b == [] {
      assert a + b == a;
    } else {
      var init := b[..|b| - 1];
      assert (a + b)[..|a + b| - 1] == a + init;
      OccurrencesAppend(a, init, w);
    }
  }

  /** Matching against the concatenation of categories is the sum of matching
      against each category. */
  lemma {:induction false} MatchesAppend(tokens: seq<string>, a: seq<string>, b: seq<string>)
    ensures Matches(tokens, a + b) == Matches(tokens, a) + Matches(tokens, b)
    decreases |tokens|
  {
    if tokens != [] {
      var init := tokens[..|tokens| - 1];
      MatchesAppend(init, a, b);
      OccurrencesAppend(a, b, tokens[|tokens| - 1]);
    }
  }

  /** Matching against a single word counts the tokens equal to it. */
  lemma {:induction false} MatchesSingleton(tokens: seq<string>, w: string)
    ensures Matches(tokens, [w]) == Occurrences(tokens, w)
    decreases |tokens|
  {
    if tokens != [] {
      var init := tokens[..|tokens| - 1];
      MatchesSingleton(init, w);
      assert [w][..0] == [];
    }
  }

  /** The entries of a count vector add up to the number of equal
      (token, word) pairs. */
  lemma {:induction false} SumOfCountVector(tokens: seq<string>, words: seq<string>)
    ensures Sum(CountVector(tokens, words)) == Matches(tokens, words)
    decreases |words|
  {
    if words == [] {
      assert CountVector(tokens, words) == [];
      assert forall k :: 0 <= k < |tokens| ==> tokens[k] !in words;
    } else {
      var init := words[..|words| - 1];
      var last := words[|words| - 1];
      var v := CountVector(tokens, words);
      assert v[..|v| - 1] == CountVector(tokens, init);
      SumOfCountVector(tokens, init);
      assert words == init + [last];
      MatchesAppend(tokens, init, [last]);
      MatchesSingleton(tokens, last);
    }
  }

  /** In a list without repetitions a word occurs at most once, and exactly
      once when it is present. */
  lemma {:induction false} OccurrencesInDistinct(ws: seq<string>, w: string)
    requires Distinct(ws)
    ensures Occurrences(ws, w) == if w in ws then 1 else 0
    decreases |ws|
  {
    if ws != [] {
      var init := ws[..|ws| - 1];
      assert ws == init + [ws[|ws| - 1]];
      OccurrencesInDistinct(init, w);
      if ws[|ws| - 1] == w {
        assert w !in init by {
          forall k | 0 <= k < |init| ensures init[k] != w {
            assert init[k] == ws[k];
          }
        }
      }
    }
  }

  /** Against a list without repetitions every token matches at most once, so
      the number of matches is at most the number of tokens, with equality
      exactly when every token is in the list. */
  lemma {:induction false} MatchesDistinctBound(tokens: seq<string>, words: seq<string>)
    requires Distinct(words)
    ensures Matches(tokens, words) <= |tokens|
    ensures Matches(tokens, words) == |tokens| <==> forall k :: 0 <= k < |tokens| ==> tokens[k] in words
    decreases |tokens|
  {
    if tokens != [] {
      var init := tokens[..|tokens| - 1];
      var last := tokens[|tokens| - 1];
      MatchesDistinctBound(init, words);
      OccurrencesInDistinct(words, last);
      assert forall k :: 0 <= k < |init| ==> init[k] == tokens[k];
    }
  }
}
