/** `get_count_vector` and `get_classification_vector`: after validating their
    inputs, both allocate a zeroed vector and increment its entries in place
    while scanning the tokens of the text against the word lists. */
module Vectorizer {
  import opened Text
  import opened Counting
  import opened Validation

  /** The inner loop of `get_count_vector`: adds one to `counts[i]` for every
      position `i` where `words[i]` equals `token`. */
  method AddTokenCounts(counts: array<int>, words: seq<string>, token: string)
    requires counts.Length == |words|
    modifies counts
    ensures forall i :: 0 <= i < |words| ==> counts[i] == old(counts[i]) + (if words[i] == token then 1 else 0)
  {
    var i := 0;
    while i < |words|
      invariant 0 <= i <= |words|
      invariant forall k :: 0 <= k < i ==> counts[k] == old(counts[k]) + (if words[k] == token then 1 else 0)
      invariant forall k :: i <= k < |words| ==> counts[k] == old(counts[k])
    {
      if words[i] == token {
        counts[i] := counts[i] + 1;
      }
      i := i + 1;
    }
  }

  /** `get_count_vector(text, words)`: entry `i` of the result counts the
      whitespace tokens of `text` equal to `words[i]`. */
  method GetCountVector(text: string, words: seq<string>) returns (r: Result<seq<int>>)
    ensures r.Err? <==> CheckWordList(words).Some?
    ensures r.Err? ==> r.error == CheckWordList(words).value
    ensures r.Ok? ==> |r.value| == |words|
    ensures r.Ok? ==> forall i :: 0 <= i < |words| ==> r.value[i] == Occurrences(Tokens(text), words[i])
  {
    var invalid := CheckWordList(words);
    if invalid.Some? {
      return Err(invalid.value);
    }
    var counts := new int[|words|](_ => 0);
    var tokens := Tokens(text);
    var t := 0;
    while t < |tokens|
      invariant 0 <= t <= |tokens|
      invariant forall i :: 0 <= i < |words| ==> counts[i] == Occurrences(tokens[..t], words[i])
    {
      forall i | 0 <= i < |words| {
        OccurrencesOfPrefix(tokens, t, words[i]);
      }
      AddTokenCounts(counts, words, tokens[t]);
      t := t + 1;
    }
    assert tokens[..t] == tokens;
    return Ok(counts[..]);
  }

  /** One inner loop of `get_classification_vector`: adds to `vector[slot]`
      one for every word of `category` equal to `token`. */
  method AddCategoryMatches(vector: array<int>, slot: nat, category: seq<string>, token: string)
    requires slot < vector.Length
    modifies vector
    ensures vector[slot] == old(vector[slot]) + Occurrences(category, token)
    ensures forall k :: 0 <= k < vector.Length && k != slot ==> vector[k] == old(vector[k])
  {
    var j := 0;
    while j < |category|
      invariant 0 <= j <= |category|
      invariant vector[slot] == old(vector[slot]) + Occurrences(category[..j], token)
      invariant forall k :: 0 <= k < vector.Length && k != slot ==> vector[k] == old(vector[k])
    {
      OccurrencesOfPrefix(category, j, token);
      if category[j] == token {
        vector[slot] := vector[slot] + 1;
      }
      j := j + 1;
    }
    assert category[..j] == category;
  }

  /** One pass of the outer loop of `get_classification_vector`: the three
      inner loops for token `tokens[t]`, which extend the counts from the
      first `t` tokens to the first `t + 1`. */
  method AddTokenMatches(vector: array<int>, tokens: seq<string>, t: nat,
                         positive: seq<string>, neutral: seq<string>, negative: seq<string>)
    requires vector.Length == 3 && t < |tokens|
    requires vector[0] == Matches(tokens[..t], positive)
    requires vector[1] == Matches(tokens[..t], neutral)
    requires vector[2] == Matches(tokens[..t], negative)
    modifies vector
    ensures vector[0] == Matches(tokens[..t + 1], positive)
    ensures vector[1] == Matches(tokens[..t + 1], neutral)
    ensures vector[2] == Matches(tokens[..t + 1], negative)
  {
    MatchesOfPrefix(tokens, t, positive);
    MatchesOfPrefix(tokens, t, neutral);
    MatchesOfPrefix(tokens, t, negative);
    AddCategoryMatches(vector, 0, positive, tokens[t]);
    AddCategoryMatches(vector, 1, neutral, tokens[t]);
    AddCategoryMatches(vector, 2, negative, tokens[t]);
  }

  /** The counting part of `get_classification_vector`: a zeroed 3-slot
      vector, incremented token by token. */
  method ClassifyTokens(tokens: seq<string>, positive: seq<string>, neutral: seq<string>, negative: seq<string>)
    returns (v: seq<int>)
    ensures v == [Matches(tokens, positive), Matches(tokens, neutral), Matches(tokens, negative)]
  {
    var vector := new int[3](_ => 0);
    var t := 0;
    while t < |tokens|
      invariant 0 <= t <= |tokens|
      invariant vector[0] == Matches(tokens[..t], positive)
      invariant vector[1] == Matches(tokens[..t], neutral)
      invariant vector[2] == Matches(tokens[..t], negative)
    {
      AddTokenMatches(vector, tokens, t, positive, neutral, negative);
      t := t + 1;
    }
    assert tokens[..t] == tokens;
    assert vector[..] == [vector[0], vector[1], vector[2]];
    return vector[..];
  }

  /** `get_classification_vector(positive, neutral, negative, text)`: the
      vector `[positive, neutral, negative]` whose slots count the equal
      (token, category word) pairs of each category. */
  method GetClassificationVector(positive: seq<string>, neutral: seq<string>, negative: seq<string>, text: string)
    returns (r: Result<seq<int>>)
    ensures r.Err? <==> CheckCategories(positive, negative, neutral).Some?
    ensures r.Err? ==> r.error == CheckCategories(positive, negative, neutral).value
    ensures r.Ok? ==> r.value == [Matches(Tokens(text), positive), Matches(Tokens(text), neutral), Matches(Tokens(text), negative)]
  {
    var invalid := CheckCategories(positive, negative, neutral);
    if invalid.Some? {
      return Err(invalid.value);
    }
    var vector := ClassifyTokens(Tokens(text), positive, neutral, negative);
    return Ok(vector);
  }
}
