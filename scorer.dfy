/** `process_tweet`: validates its inputs, builds the whole-lexicon count
    vector and the classification vector, and derives the score (the
    classification vector weighted by positive +1, neutral 0, negative -1)
    and the quality index (the count vector's total over the lexicon size). */
module Scorer {
  import opened Text
  import opened Counting
  import opened Validation
  import opened Vectorizer
  import opened Lexicon

  /** The weight vector, aligned with `[positive, neutral, negative]`. */
  const Weights: seq<int> := [1, 0, -1]

  /** Dot product of two vectors of equal length. */
  function Dot(a: seq<int>, b: seq<int>): int
    requires |a| == |b|
  {
    if a == [] then 0 else a[0] * b[0] + Dot(a[1..], b[1..])
  }

  /** `classification_vector.T @ weight_vector`: positive matches minus
      negative matches; the neutral slot never contributes. */
  function Score(classification: seq<int>): (s: int)
    requires |classification| == 3
    ensures s == classification[0] - classification[2]
  {
    var c := classification;
    assert Dot(c[2..], Weights[2..]) == -c[2] by {
      assert c[2..][1..] == [] && Weights[2..][1..] == [];
    }
    assert Dot(c[1..], Weights[1..]) == -c[2] by {
      assert c[1..][1..] == c[2..] && Weights[1..][1..] == Weights[2..];
    }
    Dot(c, Weights)
  }

  /** `sum(np.dot(scale, v))`: every entry scaled, then added up. */
  function ScaledSum(scale: real, v: seq<int>): real
  {
    if v == [] then 0.0 else ScaledSum(scale, v[..|v| - 1]) + scale * v[|v| - 1] as real
  }

  /** Scaling each entry and adding is scaling the total. */
  lemma {:induction false} ScaledSumOfTotal(scale: real, v: seq<int>)
    ensures ScaledSum(scale, v) == scale * Sum(v) as real
    decreases |v|
  {
    if v != [] {
      ScaledSumOfTotal(scale, v[..|v| - 1]);
    }
  }

  /** `sum(np.dot(1/len(all_words), count_vector))`, in exact arithmetic: the
      total of the count vector over the lexicon size. */
  function QualityIndex(counts: seq<int>, lexiconSize: nat): (q: real)
    requires lexiconSize > 0
    ensures q == Sum(counts) as real / lexiconSize as real
  {
    ScaledSumOfTotal(1.0 / lexiconSize as real, counts);
    ScaledSum(1.0 / lexiconSize as real, counts)
  }

  /** The score and quality index of one tweet. */
  datatype Evaluation = Evaluation(score: int, quality: real)

  /** `process_tweet(tweet, positive, negative, neutral, all_words)`. The
      classifier is called with the categories in the order positive,
      neutral, negative, which is the order its parameters expect. */
  method ProcessTweet(tweet: string, positive: seq<string>, negative: seq<string>,
                      neutral: seq<string>, allWords: seq<string>) returns (r: Result<Evaluation>)
    ensures r.Err? <==> CheckTweetInputs(tweet, positive, negative, neutral, allWords).Some?
    ensures r.Err? ==> r.error == CheckTweetInputs(tweet, positive, negative, neutral, allWords).value
    ensures r.Ok? ==> r.value.score == Matches(Tokens(tweet), positive) - Matches(Tokens(tweet), negative)
    ensures r.Ok? ==> r.value.quality == Sum(CountVector(Tokens(tweet), allWords)) as real / |allWords| as real
  {
    var invalid := CheckTweetInputs(tweet, positive, negative, neutral, allWords);
    if invalid.Some? {
      return Err(invalid.value);
    }
    var counts := GetCountVector(tweet, allWords);
    var classification := GetClassificationVector(positive, neutral, negative, tweet);
    var score := Score(classification.value);
    assert counts.value == CountVector(Tokens(tweet), allWords);
    var quality := QualityIndex(counts.value, |allWords|);
    return Ok(Evaluation(score, quality));
  }

  /** The quality index is never negative. */
  lemma QualityNonNegative(tokens: seq<string>, allWords: seq<string>)
    requires allWords != []
    ensures QualityIndex(CountVector(tokens, allWords), |allWords|) >= 0.0
  {
    SumOfCountVector(tokens, allWords);
  }

  /** A tweet none of whose tokens is a lexicon word scores 0 with quality 0. */
  lemma NoMatchesScoreZero(tokens: seq<string>, positive: seq<string>, negative: seq<string>,
                           neutral: seq<string>, allWords: seq<string>)
    requires allWords != []
    requires forall k :: 0 <= k < |tokens| ==>
      tokens[k] !in positive && tokens[k] !in negative && tokens[k] !in allWords
    ensures Score([Matches(tokens, positive), Matches(tokens, neutral), Matches(tokens, negative)]) == 0
    ensures QualityIndex(CountVector(tokens, allWords), |allWords|) == 0.0
  {
    SumOfCountVector(tokens, allWords);
  }

  /** Against a loaded lexicon, the quality index is the classification
      vector's total (positive, neutral and negative matches together) over
      the lexicon size. */
  lemma QualityOfWellFormedLexicon(tokens: seq<string>, lex: Lexicon)
    requires WellFormed(lex)
    ensures QualityIndex(CountVector(tokens, lex.allWords), |lex.allWords|)
         == (Matches(tokens, lex.positive) + Matches(tokens, lex.neutral) + Matches(tokens, lex.negative)) as real
            / |lex.allWords| as real
  {
    var matched := Matches(tokens, lex.positive) + Matches(tokens, lex.neutral) + Matches(tokens, lex.negative);
    assert Sum(CountVector(tokens, lex.allWords)) == matched by {
      LexiconMatchTotals(tokens, lex);
    }
  }

  /** Against a loaded lexicon, the quality index is at most the number of
      tokens over the lexicon size. */
  lemma QualityBound(tokens: seq<string>, lex: Lexicon)
    requires WellFormed(lex)
    ensures QualityIndex(CountVector(tokens, lex.allWords), |lex.allWords|) <= |tokens| as real / |lex.allWords| as real
  {
    var total, size := Sum(CountVector(tokens, lex.allWords)) as real, |lex.allWords| as real;
    assert total <= |tokens| as real && size > 0.0 by {
      LexiconMatchTotals(tokens, lex);
    }
    assert total / size <= |tokens| as real / size;
  }

  /** The tokens of the sanitized tweet "hoy es un buen dia pero el clima
      esta malo malo". */
  const ExampleTokens: seq<string> :=
    ["hoy", "es", "un", "buen", "dia", "pero", "el", "clima", "esta", "malo", "malo"]

  /** The example tokens, joined by single spaces, split back into themselves. */
  lemma ExampleTokensRoundTrip()
    ensures Tokens(JoinWithSpaces(ExampleTokens)) == ExampleTokens
  {
    forall k | 0 <= k < |ExampleTokens| ensures IsToken(ExampleTokens[k]) {
      AlphaIsToken(ExampleTokens[k]);
    }
    TokensOfJoined(ExampleTokens);
  }

  /** How often the example lexicon's words occur among the example tokens
      ("buen" is not "bueno"). */
  lemma ExampleOccurrences()
    ensures Occurrences(ExampleTokens, "bueno") == 0
    ensures Occurrences(ExampleTokens, "dia") == 1
    ensures Occurrences(ExampleTokens, "malo") == 2
  {
    var front := ExampleTokens[..9];
    assert ExampleTokens == front + ["malo", "malo"];
    ExampleOccurrencesOfDia();
    OccurrencesAppend(front, ["malo", "malo"], "dia");
    OccurrencesAppend(front, ["malo", "malo"], "malo");
    assert Occurrences(front, "malo") == 0;
    assert Occurrences(["malo", "malo"], "dia") == 0;
    assert Occurrences(["malo", "malo"], "malo") == 2 by {
      assert ["malo", "malo"][..1] == ["malo"];
    }
  }

  /** The example tokens before "malo malo" hold "dia" once. */
  lemma ExampleOccurrencesOfDia()
    ensures Occurrences(ExampleTokens[..9], "dia") == 1
  {
    var front := ExampleTokens[..9];
    var head, rest := front[..4], front[5..];
    assert front == head + ["dia"] + rest;
    OccurrencesAppend(head + ["dia"], rest, "dia");
    OccurrencesAppend(head, ["dia"], "dia");
    assert Occurrences(head, "dia") == 0 && Occurrences(rest, "dia") == 0;
    assert Occurrences(["dia"], "dia") == 1;
  }

  /** The example tokens, against the lexicon positive "bueno", negative
      "malo", neutral "dia", classify as [0, 1, 2], score -2 and have
      quality 3 / 3 = 1. */
  lemma ExampleScores()
    ensures var classification :=
        [Matches(ExampleTokens, ["bueno"]), Matches(ExampleTokens, ["dia"]), Matches(ExampleTokens, ["malo"])];
      classification == [0, 1, 2]
      && Score(classification) == -2
      && QualityIndex(CountVector(ExampleTokens, ["bueno", "malo", "dia"]), 3) == 1.0
  {
    ExampleOccurrences();
    MatchesSingleton(ExampleTokens, "bueno");
    MatchesSingleton(ExampleTokens, "dia");
    MatchesSingleton(ExampleTokens, "malo");
    SumOfCountVector(ExampleTokens, ["bueno", "malo", "dia"]);
    MatchesAppend(ExampleTokens, ["bueno"], ["malo"]);
    MatchesAppend(ExampleTokens, ["bueno", "malo"], ["dia"]);
    assert ["bueno"] + ["malo"] == ["bueno", "malo"];
    assert ["bueno", "malo"] + ["dia"] == ["bueno", "malo", "dia"];
  }

  /** A worked example, from the sanitized tweet string on: the example
      tokens separated by single spaces split back into those tokens, which
      classify as [0, 1, 2], score -2 and have quality 1. */
  lemma WorkedExample()
    ensures var tokens := Tokens(JoinWithSpaces(ExampleTokens));
      var classification := [Matches(tokens, ["bueno"]), Matches(tokens, ["dia"]), Matches(tokens, ["malo"])];
      tokens == ExampleTokens
      && classification == [0, 1, 2]
      && Score(classification) == -2
      && QualityIndex(CountVector(tokens, ["bueno", "malo", "dia"]), 3) == 1.0
  {
    ExampleTokensRoundTrip();
    ExampleScores();
  }
}
