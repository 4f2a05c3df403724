/** The content validation of `load_words`, once the JSON file has been read
    and checked against its schema: categories must be non-empty, every word
    is sanitized, and the combined word list must not repeat a word. */
module Lexicon {
  import opened Text
  import opened Counting
  import opened Validation

  /** A schema-valid lexicon file: exactly the three keys, each an array of
      strings. Missing or extra keys and non-string items cannot be written
      in this type. */
  datatype Payload = Payload(positive: seq<string>, negative: seq<string>, neutral: seq<string>)

  /** What `load_words` returns: the three sanitized categories and their
      concatenation. */
  datatype Lexicon = Lexicon(positive: seq<string>, negative: seq<string>, neutral: seq<string>, allWords: seq<string>)

  /** The invariant a loaded lexicon satisfies: no empty category, the
      whole-lexicon list is the concatenation positive, negative, neutral,
      and no word is repeated in it. */
  predicate WellFormed(lex: Lexicon)
  {
    lex.positive != [] && lex.negative != [] && lex.neutral != []
    && lex.allWords == lex.positive + lex.negative + lex.neutral
    && Distinct(lex.allWords)
  }

  /** Python's `set(ws)`. */
  function Elements(ws: seq<string>): set<string>
  {
    set w | w in ws
  }

  /** The size comparison `len(ws) != len(set(ws))` detects exactly the lists
      that repeat a word. */
  lemma {:induction false} SetSizeDetectsRepeats(ws: seq<string>)
    ensures |Elements(ws)| <= |ws|
    ensures |Elements(ws)| == |ws| <==> Distinct(ws)
    decreases |ws|
  {
    if ws != [] {
      var init, last := ws[..|ws| - 1], ws[|ws| - 1];
      SetSizeDetectsRepeats(init);
      assert ws == init + [last];
      assert Elements(ws) == Elements(init) + {last};
      if last in init {
        assert Elements(ws) == Elements(init);
        var k :| 0 <= k < |init| && init[k] == last;
        assert ws[k] == ws[|ws| - 1];
      } else {
        assert |Elements(ws)| == |Elements(init)| + 1;
        if Distinct(init) {
          forall i, j | 0 <= i < j < |ws| ensures ws[i] != ws[j] {
            if j < |ws| - 1 {
              assert ws[i] == init[i] && ws[j] == init[j];
            } else {
              assert ws[i] == init[i];
            }
          }
        } else {
          var i, j :| 0 <= i < j < |init| && init[i] == init[j];
          assert ws[i] == ws[j];
        }
      }
    }
  }

  /** `load_words` from the schema-valid payload on: reject an empty category
      (positive, negative, neutral, in that order, on the raw lists), sanitize
      every word, concatenate, and reject a repeated sanitized word. */
  function LoadWords(normalize: string -> string, payload: Payload): (r: Result<Lexicon>)
    ensures r == Err(MissingCategoryWords(Positive)) <==> payload.positive == []
    ensures r == Err(MissingCategoryWords(Negative)) <==> payload.positive != [] && payload.negative == []
    ensures r == Err(MissingCategoryWords(Neutral)) <==>
      payload.positive != [] && payload.negative != [] && payload.neutral == []
    ensures r == Err(RepeatedWords) <==>
      payload.positive != [] && payload.negative != [] && payload.neutral != []
      && !Distinct(SanitizeEach(normalize, payload.positive) + SanitizeEach(normalize, payload.negative)
                   + SanitizeEach(normalize, payload.neutral))
    ensures r.Err? ==> r.error.MissingCategoryWords? || r.error == RepeatedWords
    ensures r.Ok? ==> WellFormed(r.value)
    ensures r.Ok? ==> forall k :: 0 <= k < |r.value.allWords| ==> '-' !in r.value.allWords[k]
    ensures r.Ok? ==> r.value.positive == SanitizeEach(normalize, payload.positive)
    ensures r.Ok? ==> r.value.negative == SanitizeEach(normalize, payload.negative)
    ensures r.Ok? ==> r.value.neutral == SanitizeEach(normalize, payload.neutral)
  {
    if payload.positive == [] then Err(MissingCategoryWords(Positive))
    else if payload.negative == [] then Err(MissingCategoryWords(Negative))
    else if payload.neutral == [] then Err(MissingCategoryWords(Neutral))
    else
      var positive := SanitizeEach(normalize, payload.positive);
      var negative := SanitizeEach(normalize, payload.negative);
      var neutral := SanitizeEach(normalize, payload.neutral);
      var allWords := positive + negative + neutral;
      SetSizeDetectsRepeats(allWords);
      if |allWords| != |Elements(allWords)| then Err(RepeatedWords)
      else Ok(Lexicon(positive, negative, neutral, allWords))
  }

  /** Against a well-formed lexicon, the whole-lexicon count vector adds up to
      the three category counts together, never exceeds the number of tokens,
      and reaches it exactly when every token is a lexicon word. */
  lemma LexiconMatchTotals(tokens: seq<string>, lex: Lexicon)
    requires WellFormed(lex)
    ensures Sum(CountVector(tokens, lex.allWords))
         == Matches(tokens, lex.positive) + Matches(tokens, lex.neutral) + Matches(tokens, lex.negative)
    ensures Sum(CountVector(tokens, lex.allWords)) <= |tokens|
    ensures Sum(CountVector(tokens, lex.allWords)) == |tokens| <==>
      forall k :: 0 <= k < |tokens| ==> tokens[k] in lex.allWords
  {
    SumOfCountVector(tokens, lex.allWords);
    MatchesAppend(tokens, lex.positive + lex.negative, lex.neutral);
    MatchesAppend(tokens, lex.positive, lex.negative);
    MatchesDistinctBound(tokens, lex.allWords);
  }
}
