/** Text handling shared by the sentiment pipeline: whitespace tokenisation
    (Python's `str.split()` without arguments), the `isalpha` test applied to
    lexicon words, and the final step of the text sanitizer. */
module Text {

  /** The characters Python's `str.isspace` accepts, on which `str.split()`
      breaks a text. */
  predicate IsSpace(c: char)
  {
    var code := c as int;
    (9 <= code <= 13) || (28 <= code <= 32) || code == 0x85 || code == 0xA0 || code == 0x1680
    || (0x2000 <= code <= 0x200A) || code == 0x2028 || code == 0x2029 || code == 0x202F
    || code == 0x205F || code == 0x3000
  }

  /** A token as `str.split()` produces it: non-empty, without whitespace. */
  predicate IsToken(w: string)
  {
    w != [] && forall i :: 0 <= i < |w| ==> !IsSpace(w[i])
  }

  /** A letter in the sense of `str.isalpha`, restricted to ASCII. */
  predicate IsLetter(c: char)
  {
    'a' <= c <= 'z' || 'A' <= c <= 'Z'
  }

  /** `str.isalpha`: non-empty and made of letters only. */
  predicate IsAlpha(w: string)
  {
    w != [] && forall i :: 0 <= i < |w| ==> IsLetter(w[i])
  }

  /** A word that passes `isalpha` is a single token: letters are not
      whitespace. */
  lemma AlphaIsToken(w: string)
    requires IsAlpha(w)
    ensures IsToken(w)
  {
  }

  /** Length of the longest whitespace-free prefix of `s`. */
  function WordLength(s: string): (n: nat)
    ensures n <= |s|
    ensures forall i :: 0 <= i < n ==> !IsSpace(s[i])
    ensures n < |s| ==> IsSpace(s[n])
  {
    if s == [] || IsSpace(s[0]) then 0 else 1 + WordLength(s[1..])
  }

  /** `s` with every whitespace character removed. */
  function RemoveSpaces(s: string): string
  {
    if s == [] then [] else (if IsSpace(s[0]) then [] else [s[0]]) + RemoveSpaces(s[1..])
  }

  /** The tokens written one after another, with nothing between them. */
  function Concat(ws: seq<string>): string
  {
    if ws == [] then [] else ws[0] + Concat(ws[1..])
  }

  /** Removing whitespace leaves a whitespace-free prefix as it is. */
  lemma {:induction false} RemoveSpacesAfterWord(s: string, n: nat)
    requires n <= |s|
    requires forall i :: 0 <= i < n ==> !IsSpace(s[i])
    ensures RemoveSpaces(s) == s[..n] + RemoveSpaces(s[n..])
    decreases n
  {
    if n > 0 {
      RemoveSpacesAfterWord(s[1..], n - 1);
      assert s[1..][..n - 1] == s[1..n] && s[1..][n - 1..] == s[n..];
      assert s[..n] == [s[0]] + s[1..n];
    }
  }

  /** `text.split()`: the maximal runs of non-whitespace characters, in order;
      leading, trailing and repeated whitespace yield no empty tokens, and
      the tokens together hold every non-whitespace character of `s`, in
      order. */
  function Tokens(s: string): (r: seq<string>)
    ensures forall k :: 0 <= k < |r| ==> IsToken(r[k])
    ensures Concat(r) == RemoveSpaces(s)
    decreases |s|
  {
    if s == [] then []
    else if IsSpace(s[0]) then Tokens(s[1..])
    else
      var n := WordLength(s);
      RemoveSpacesAfterWord(s, n);
      var rest := Tokens(s[n..]);
      assert ([s[..n]] + rest)[1..] == rest;
      [s[..n]] + rest
  }

  /** Tokens joined by single spaces, the shape of a sanitized text. */
  function JoinWithSpaces(ws: seq<string>): string
  {
    if ws == [] then []
    else if |ws| == 1 then ws[0]
    else ws[0] + " " + JoinWithSpaces(ws[1..])
  }

  /** A token followed by nothing or by whitespace is read back whole. */
  lemma {:induction false} WordLengthOfToken(w: string, rest: string)
    requires IsToken(w)
    requires rest == [] || IsSpace(rest[0])
    ensures WordLength(w + rest) == |w|
  {
    var s := w + rest;
    assert forall i :: 0 <= i < |w| ==> s[i] == w[i];
    assert rest != [] ==> s[|w|] == rest[0];
  }

  /** Splitting a space-joined sequence of tokens gives the tokens back. */
  lemma {:induction false} TokensOfJoined(ws: seq<string>)
    requires forall k :: 0 <= k < |ws| ==> IsToken(ws[k])
    ensures Tokens(JoinWithSpaces(ws)) == ws
    decreases |ws|
  {
    if ws == [] {
    } else if |ws| == 1 {
      var w := ws[0];
      WordLengthOfToken(w, []);
      assert w + [] == w;
      assert w[..|w|] == w && w[|w|..] == [];
      assert Tokens(w) == [w] + Tokens([]);
    } else {
      var w, rest := ws[0], JoinWithSpaces(ws[1..]);
      var s := w + " " + rest;
      assert s == w + (" " + rest);
      WordLengthOfToken(w, " " + rest);
      assert s[..|w|] == w;
      assert s[|w|..] == " " + rest;
      assert (" " + rest)[1..] == rest;
      TokensOfJoined(ws[1..]);
      assert Tokens(s) == [w] + Tokens(" " + rest);
    }
  }

  /** Python's `s.replace('-', ' ')`. */
  function ReplaceHyphens(s: string): (r: string)
    ensures |r| == |s|
    ensures forall i :: 0 <= i < |s| ==> r[i] == (if s[i] == '-' then ' ' else s[i])
  {
    if s == [] then [] else [if s[0] == '-' then ' ' else s[0]] + ReplaceHyphens(s[1..])
  }

  /** `sanitize_text`. The steps before the last one (strip, lower-casing,
      NFKD normalisation, dropping non-ASCII characters and slugify) are
      library calls and stand here as the parameter `normalize`; what is
      modelled is the final replacement of hyphens by spaces. */
  function Sanitize(normalize: string -> string, text: string): (r: string)
    ensures |r| == |normalize(text)|
    ensures '-' !in r
    ensures forall i :: 0 <= i < |r| && normalize(text)[i] != '-' ==> r[i] == normalize(text)[i]
    ensures forall i :: 0 <= i < |r| && normalize(text)[i] == '-' ==> r[i] == ' '
  {
    ReplaceHyphens(normalize(text))
  }

  /** Replacing hyphens a second time changes nothing. */
  lemma ReplaceHyphensIdempotent(s: string)
    ensures ReplaceHyphens(ReplaceHyphens(s)) == ReplaceHyphens(s)
  {
  }

  /** `[sanitize_text(x) for x in xs]`: every text sanitized, in order. */
  function SanitizeEach(normalize: string -> string, xs: seq<string>): (r: seq<string>)
    ensures |r| == |xs|
    ensures forall k :: 0 <= k < |xs| ==> r[k] == Sanitize(normalize, xs[k])
  {
    if xs == [] then [] else [Sanitize(normalize, xs[0])] + SanitizeEach(normalize, xs[1..])
  }

  /** `load_tweets` after the file has been read: one sanitized text per line,
      in input order, none of them holding a hyphen. */
  function LoadTweets(normalize: string -> string, lines: seq<string>): (tweets: seq<string>)
    ensures |tweets| == |lines|
    ensures forall k :: 0 <= k < |lines| ==> tweets[k] == Sanitize(normalize, lines[k])
    ensures forall k :: 0 <= k < |lines| ==> '-' !in tweets[k]
  {
    SanitizeEach(normalize, lines)
  }
}
