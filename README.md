# Lexicon-based tweet sentiment scoring, modelled in Dafny

The program scores each line of text (a "tweet") against a lexicon of
positive, negative and neutral words. A lexicon loaded from a JSON file is
validated and every word in it is sanitized. For each tweet, two vectors are
built from its whitespace tokens:

- a count vector aligned with the whole-lexicon word list;
- a three-slot classification vector `[positive, neutral, negative]`.

The score is the classification vector weighted by `[1, 0, -1]`. The quality
index is the count vector's total divided by the lexicon size.

The model has six modules. `Text`, `Vectorizer`, `Lexicon` and `Scorer` follow
the components of `program.py`; `Counting` and `Validation` are shared layers
that those four build on:

- `Text` (`text.dfy`): tokenisation as `str.split()` does it, `isalpha`, the
  final hyphen-to-space step of `sanitize_text`, and `load_tweets` after the
  file has been read.
- `Counting` (`counting.dfy`): the reference counting functions (occurrences
  of a word, equal (token, word) pairs, count vector, sum) and their lemmas.
- `Validation` (`validation.dfy`): the error conditions and the order in which
  each operation checks them.
- `Vectorizer` (`vectorizer.dfy`): `get_count_vector` and
  `get_classification_vector`. Both are methods that allocate a zeroed array
  and increment it in place inside nested loops, as the source does. Each is
  proved against the counting functions.
- `Lexicon` (`lexicon.dfy`): the content validation of `load_words`.
- `Scorer` (`scorer.dfy`): `process_tweet`, the score and the quality index.

Errors that the source raises as exceptions are values of `Validation.Error`,
returned in `Validation.Result`. Each operation reports the first failing
check, in the source's order.

Three behaviours of the source to note:

- `get_classification_vector` does not reject an empty text; only
  `process_tweet` does.
- `load_words` does not check that words are alphabetic. A non-alphabetic
  sanitized word is rejected later, by the vectorizer, the classifier or the
  scorer.
- The classification vector's order is `[positive, neutral, negative]`. That is
  the parameter order of `get_classification_vector`, and `process_tweet`
  passes its arguments in that order. The docstring lists them in a different
  order.

## Model

| member | source | states |
|---|---|---|
| `Text.WordLength` | program.py:189 | the length of the longest whitespace-free prefix: every character before it is not whitespace, and the next one, if any, is whitespace |
| `Text.Tokens` | program.py:189 | `text.split()` yields only non-empty tokens that contain no whitespace, and the tokens, concatenated in order, are the text with its whitespace removed |
| `Text.RemoveSpacesAfterWord` | program.py:189 | removing whitespace from a text that starts with a whitespace-free run keeps that run and removes whitespace from the rest |
| `Text.AlphaIsToken` | program.py:178-183 | a word that passes `isalpha` is a valid token: non-empty and whitespace-free |
| `Text.TokensOfJoined` | program.py:189 | splitting tokens joined by single spaces gives back exactly those tokens, in order |
| `Text.ReplaceHyphens` | program.py:70 | `replace('-', ' ')` keeps the length, turns every hyphen into a space and leaves every other character in place |
| `Text.Sanitize` | program.py:47-72 | the sanitized text has no hyphen, is as long as the normalized text, turns each of its hyphens into a space and keeps each other character in place |
| `Text.ReplaceHyphensIdempotent` | program.py:70 | replacing hyphens a second time changes nothing |
| `Text.SanitizeEach` | program.py:146-148 | sanitizing a list element by element keeps its length, and entry `k` is the sanitized `k`-th input |
| `Text.LoadTweets` | program.py:92-98 | one tweet per input line, in order, and tweet `k` is the sanitized line `k`, with no hyphen in it |
| `Counting.Occurrences` | program.py:189-192 | the count of a word is at most the list length, and it is zero exactly when the word is absent |
| `Counting.Matches` | program.py:243-252 | the number of equal (token, category word) pairs is zero exactly when no token is a category word |
| `Counting.OccurrencesOfPrefix` | program.py:191-192 | scanning one more element adds one exactly when that element equals the word |
| `Counting.MatchesOfPrefix` | program.py:243-252 | scanning one more token adds that token's matches in the category |
| `Counting.OccurrencesAppend` | program.py:151 | counting in a concatenation is the sum of counting in each part |
| `Counting.MatchesAppend` | program.py:151 | matching against concatenated categories is the sum of matching against each |
| `Counting.MatchesSingleton` | program.py:189-192 | matching against a one-word list counts the tokens equal to that word |
| `Counting.SumOfCountVector` | program.py:186-192 | the count vector's entries add up to the number of equal (token, word) pairs |
| `Counting.OccurrencesInDistinct` | program.py:154 | in a list with no repeated word, a word occurs exactly once if it is in the list and zero times otherwise |
| `Counting.MatchesDistinctBound` | program.py:189-192 | against a duplicate-free list the matches are at most the number of tokens, with equality exactly when every token is in the list |
| `Validation.CheckWordList` | program.py:178-183 | a word list is rejected exactly when it is empty (empty-list error) or holds a non-alphabetic word (non-word error) |
| `Validation.EmptyCategoryError` | program.py:220-225 | reports the first empty category in the order positive, negative, neutral; none is reported only when all three are non-empty |
| `Validation.NonWordCategoryError` | program.py:232-237 | reports the first category holding a non-alphabetic word; none is reported only when all words pass `isalpha` |
| `Validation.CheckCategories` | program.py:220-237 | the classifier's checks pass exactly when all three categories are non-empty and alphabetic; the error is the first empty category (positive, negative, neutral) if there is one, and otherwise the first category holding a non-alphabetic word |
| `Validation.CheckTweetInputs` | program.py:284-309 | the scorer's checks pass exactly when the tweet and every list are non-empty and every word is alphabetic; an empty tweet is reported first, then the first empty category, then an empty whole-lexicon list, then the first category with a non-alphabetic word, then a non-alphabetic lexicon word |
| `Vectorizer.AddTokenCounts` | program.py:190-192 | one pass over the words adds one to entry `i` exactly when `words[i]` equals the token |
| `Vectorizer.GetCountVector` | program.py:159-194 | rejects an empty or non-alphabetic word list; otherwise it returns a vector as long as the word list whose entry `i` counts the tokens equal to `words[i]` |
| `Vectorizer.AddCategoryMatches` | program.py:244-252 | one inner loop adds, to its own slot only, the number of category words equal to the token |
| `Vectorizer.AddTokenMatches` | program.py:243-252 | one pass of the outer loop runs the three inner loops for one token, extending each slot's count from the first `t` tokens to the first `t + 1` |
| `Vectorizer.ClassifyTokens` | program.py:240-254 | the zeroed three-slot vector, updated in place token by token, ends as the positive, neutral and negative match counts |
| `Vectorizer.GetClassificationVector` | program.py:196-254 | fails exactly when the category checks fail; otherwise it returns `[positive, neutral, negative]` match counts |
| `Lexicon.SetSizeDetectsRepeats` | program.py:154-155 | `len(set(ws)) <= len(ws)`, with equality exactly when `ws` repeats no word |
| `Lexicon.LoadWords` | program.py:133-157 | an empty raw category is rejected in the order positive, negative, neutral; a repeated sanitized word is rejected exactly when the categories are non-empty; on success the categories are the sanitized inputs, `all_words` is positive + negative + neutral, it is duplicate-free, and none of its words contains a hyphen |
| `Lexicon.LexiconMatchTotals` | program.py:151-155 | against a loaded lexicon, the count vector's total equals the classification vector's total and is at most the number of tokens, with equality exactly when every token is a lexicon word |
| `Scorer.Score` | program.py:318-321 | the weighted score is positive matches minus negative matches; the neutral slot never contributes |
| `Scorer.ScaledSumOfTotal` | program.py:324 | scaling every entry and then adding equals scaling the total |
| `Scorer.QualityIndex` | program.py:324 | `sum(np.dot(1/n, v))` equals exactly `sum(v) / n` |
| `Scorer.ProcessTweet` | program.py:256-326 | fails exactly when the input checks fail, with the first failing check; otherwise the score is positive minus negative matches and the quality is the count vector's total over `len(all_words)` |
| `Scorer.QualityNonNegative` | program.py:324 | the quality index is never negative |
| `Scorer.NoMatchesScoreZero` | program.py:312-324 | a tweet with no lexicon word scores 0 with quality 0 |
| `Scorer.QualityOfWellFormedLexicon` | program.py:312-324 | against a loaded lexicon, the quality is (positive + neutral + negative matches) / lexicon size |
| `Scorer.QualityBound` | program.py:324 | against a loaded lexicon, the quality is at most the number of tokens over the lexicon size |
| `Scorer.ExampleTokensRoundTrip` | program.py:189 | the example tokens joined by single spaces split back into exactly those tokens |
| `Scorer.ExampleOccurrences` | program.py:189-192 | among the example tokens, "bueno" occurs 0 times ("buen" is not "bueno"), "dia" once and "malo" twice |
| `Scorer.ExampleOccurrencesOfDia` | program.py:189-192 | the example tokens before "malo malo" hold "dia" exactly once |
| `Scorer.ExampleScores` | program.py:312-324 | with lexicon bueno / malo / dia, the example tokens classify as [0, 1, 2], score -2 and have quality 1 |
| `Scorer.WorkedExample` | program.py:189-324 | starting from the sanitized tweet string, the tokenizer gives the example tokens, which, with lexicon bueno / malo / dia, classify as [0, 1, 2], score -2 and have quality 1 |

## Left out

- `main`: argument parsing, the directory checks, the confirmation prompt,
  console output and CSV writing are I/O. It runs each tweet through
  `process_tweet` in input order.
- `load_tweets`: the `.txt` suffix check, the file-existence check and reading
  the file are I/O. Only "sanitize every line, in order" is modelled
  (`Text.LoadTweets`).
- `load_words`: the path checks, `json.load` and the schema validation are left
  out. A schema-valid payload is the datatype `Lexicon.Payload`, so missing keys,
  extra keys and non-string items cannot be written in it.
- `Text.Sanitize`: strip, lower-casing, NFKD normalisation, dropping non-ASCII
  characters and `slugify` are library behaviour. They are the function
  parameter `normalize`. As a result, idempotence of the whole sanitizer and
  "only `[a-z0-9 ]` in the output" are not proved. Only the final hyphen
  replacement is proved.
- The `isinstance` checks that raise `TypeError` are not modelled. The Dafny
  types rule those inputs out.
- `isalpha` accepts only ASCII letters in the model. Python also accepts
  non-ASCII letters such as "é". Words that have gone through the sanitizer are
  ASCII, so this matters only for unsanitized lists passed to the vectorizer,
  classifier or scorer directly.
- Scorer.QualityIndex: the quality is an exact rational (`real`). The source
  computes it in floating point (`1/len` times each entry, then summed), and
  rounding is not modelled.
- Vectors hold unbounded integers. numpy's 64-bit integer overflow cannot happen
  at these sizes and is not modelled.
- The vectors are returned as sequences (the final contents of the numpy
  arrays), not as the arrays themselves.
