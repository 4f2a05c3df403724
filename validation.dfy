/** The error conditions checked at the boundary of every scoring operation,
    in the order the program checks them, and the result type that carries
    either a value or the first error found. */
module Validation {
  import opened Text

  /** The three lexicon categories. */
  datatype Category = Positive | Negative | Neutral

  /** The program's ValueError conditions, one constructor per message. */
  datatype Error =
    | EmptyTweet                        // the tweet is empty
    | EmptyWordList                     // a whole-lexicon word list is empty
    | EmptyCategory(category: Category) // a category word list passed for scoring is empty
    | NonWordInList                     // a whole-lexicon word list holds a non-alphabetic entry
    | NonWordInCategory(category: Category)
    | MissingCategoryWords(category: Category) // the lexicon file has an empty category
    | RepeatedWords                     // the sanitized lexicon repeats a word

  datatype Result<T> = Ok(value: T) | Err(error: Error)

  datatype Option<T> = None | Some(value: T)

  /** Every entry passes `isalpha`. */
  predicate AllAlpha(ws: seq<string>)
  {
    forall k :: 0 <= k < |ws| ==> IsAlpha(ws[k])
  }

  /** The words of one category, among the three lists. */
  function Select(c: Category, positive: seq<string>, negative: seq<string>, neutral: seq<string>): seq<string>
  {
    match c
    case Positive => positive
    case Negative => negative
    case Neutral => neutral
  }

  /** The checks on a single reference word list, in order: non-empty, then
      all alphabetic. */
  function CheckWordList(words: seq<string>): (e: Option<Error>)
    ensures e == None <==> words != [] && AllAlpha(words)
    ensures e.Some? ==> e.value in {EmptyWordList, NonWordInList}
    ensures e == Some(EmptyWordList) <==> words == []
  {
    if words == [] then Some(EmptyWordList)
    else if !AllAlpha(words) then Some(NonWordInList)
    else None
  }

  /** The first empty category, checked positive, negative, neutral. */
  function EmptyCategoryError(positive: seq<string>, negative: seq<string>, neutral: seq<string>): (e: Option<Error>)
    ensures e == None <==> positive != [] && negative != [] && neutral != []
    ensures e.Some? ==> e.value.EmptyCategory? && Select(e.value.category, positive, negative, neutral) == []
    ensures e == Some(EmptyCategory(Negative)) ==> positive != []
    ensures e == Some(EmptyCategory(Neutral)) ==> positive != [] && negative != []
  {
    if positive == [] then Some(EmptyCategory(Positive))
    else if negative == [] then Some(EmptyCategory(Negative))
    else if neutral == [] then Some(EmptyCategory(Neutral))
    else None
  }

  /** The first category holding a non-alphabetic word, checked positive,
      negative, neutral. */
  function NonWordCategoryError(positive: seq<string>, negative: seq<string>, neutral: seq<string>): (e: Option<Error>)
    ensures e == None <==> AllAlpha(positive) && AllAlpha(negative) && AllAlpha(neutral)
    ensures e.Some? ==> e.value.NonWordInCategory? && !AllAlpha(Select(e.value.category, positive, negative, neutral))
    ensures e == Some(NonWordInCategory(Negative)) ==> AllAlpha(positive)
    ensures e == Some(NonWordInCategory(Neutral)) ==> AllAlpha(positive) && AllAlpha(negative)
  {
    if !AllAlpha(positive) then Some(NonWordInCategory(Positive))
    else if !AllAlpha(negative) then Some(NonWordInCategory(Negative))
    else if !AllAlpha(neutral) then Some(NonWordInCategory(Neutral))
    else None
  }

  /** The checks of the classifier: every category non-empty, then every
      category alphabetic. */
  function CheckCategories(positive: seq<string>, negative: seq<string>, neutral: seq<string>): (e: Option<Error>)
    ensures e == None <==> ValidCategories(positive, negative, neutral)
    ensures e.Some? && e.value.NonWordInCategory? ==> positive != [] && negative != [] && neutral != []
    ensures EmptyCategoryError(positive, negative, neutral).Some? ==> e == EmptyCategoryError(positive, negative, neutral)
    ensures EmptyCategoryError(positive, negative, neutral) == None ==> e == NonWordCategoryError(positive, negative, neutral)
  {
    var empty := EmptyCategoryError(positive, negative, neutral);
    if empty.Some? then empty else NonWordCategoryError(positive, negative, neutral)
  }

  predicate ValidCategories(positive: seq<string>, negative: seq<string>, neutral: seq<string>)
  {
    positive != [] && negative != [] && neutral != []
    && AllAlpha(positive) && AllAlpha(negative) && AllAlpha(neutral)
  }

  /** The checks of the scorer: tweet non-empty; categories, then the whole
      lexicon, non-empty; categories, then the whole lexicon, alphabetic. */
  function CheckTweetInputs(tweet: string, positive: seq<string>, negative: seq<string>,
                            neutral: seq<string>, allWords: seq<string>): (e: Option<Error>)
    ensures e == None <==>
      tweet != [] && ValidCategories(positive, negative, neutral) && allWords != [] && AllAlpha(allWords)
    ensures e == Some(EmptyTweet) <==> tweet == []
    ensures e == Some(EmptyWordList) ==> tweet != [] && allWords == []
    ensures e == Some(NonWordInList) ==>
      ValidCategories(positive, negative, neutral) && allWords != [] && !AllAlpha(allWords)
    ensures tweet != [] && EmptyCategoryError(positive, negative, neutral).Some? ==>
      e == EmptyCategoryError(positive, negative, neutral)
    ensures e == Some(EmptyWordList) ==> positive != [] && negative != [] && neutral != []
    ensures e.Some? && e.value.NonWordInCategory? ==>
      allWords != [] && e == NonWordCategoryError(positive, negative, neutral)
    ensures tweet != [] && EmptyCategoryError(positive, negative, neutral) == None && allWords == [] ==>
      e == Some(EmptyWordList)
    ensures tweet != [] && EmptyCategoryError(positive, negative, neutral) == None && allWords != [] &&
            NonWordCategoryError(positive, negative, neutral).Some? ==>
      e == NonWordCategoryError(positive, negative, neutral)
    ensures tweet != [] && ValidCategories(positive, negative, neutral) && allWords != [] && !AllAlpha(allWords) ==>
      e == Some(NonWordInList)
  {
    if tweet == [] then Some(EmptyTweet)
    else if EmptyCategoryError(positive, negative, neutral).Some? then EmptyCategoryError(positive, negative, neutral)
    else if allWords == [] then Some(EmptyWordList)
    else if NonWordCategoryError(positive, negative, neutral).Some? then NonWordCategoryError(positive, negative, neutral)
    else if !AllAlpha(allWords) then Some(NonWordInList)
    else None
  }
}
