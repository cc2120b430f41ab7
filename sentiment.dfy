/**
 * `parse_overall_sentiment` and `map_sentiment_to_score`.
 *
 * The parser is `re.search` with the pattern
 *   Overall \s+ Sentiment \s* :? \s* (\w+)      (case-insensitive)
 * written out as a scanner.  `Decomposition` states what it means for the
 * pattern to match at a position along some path; `MatchAt` is the scanner,
 * and the lemmas show it finds exactly the group Python's backtracking
 * matcher reports: the group's start is the same along every path, and the
 * greedy `\w+` runs to the end of the word.
 */
module Sentiment {
  import opened Common
  import opened Text

  const OVERALL: string := "overall"
  const SENTIMENT: string := "sentiment"
  const NEUTRAL: string := "Neutral"

  /** The lower-case keyword `kw` occurs at `i`, ignoring case. */
  predicate KeywordAt(text: string, i: nat, kw: string)
  {
    i + |kw| <= |text| && Lower(text[i..i + |kw|]) == kw
  }

  /** Every character in `[i, j)` is whitespace. */
  predicate SpacesIn(text: string, i: nat, j: nat)
    requires j <= |text|
  {
    forall k :: i <= k < j ==> IsSpace(text[k])
  }

  /** Every character in `[i, j)` is a word character. */
  predicate WordsIn(text: string, i: nat, j: nat)
    requires j <= |text|
  {
    forall k :: i <= k < j ==> IsWord(text[k])
  }

  /** One path through the pattern at `p`: "overall" at p, the `\s+` run
      `[p+7, b)`, "sentiment" at b, the first `\s*` run `[b+9, d)`, the optional
      colon `[d, e)`, the second `\s*` run `[e, g0)` and the group `[g0, g1)`. */
  predicate Decomposition(text: string, p: nat, b: nat, d: nat, e: nat, g0: nat, g1: nat)
  {
    KeywordAt(text, p, OVERALL) &&
    p + |OVERALL| < b <= |text| && SpacesIn(text, p + |OVERALL|, b) &&
    KeywordAt(text, b, SENTIMENT) &&
    b + |SENTIMENT| <= d <= |text| && SpacesIn(text, b + |SENTIMENT|, d) &&
    (e == d || (e == d + 1 && d < |text| && text[d] == ':')) &&
    e <= g0 <= |text| && SpacesIn(text, e, g0) &&
    g0 < g1 <= |text| && WordsIn(text, g0, g1)
  }

  /** The pattern matches at `p` along some path. */
  ghost predicate MatchesAt(text: string, p: nat)
  {
    exists b, d, e, g0, g1 :: Decomposition(text, p, b, d, e, g0, g1)
  }

  /** The end of the run of whitespace starting at `i`. */
  function SpaceEnd(text: string, i: nat): (j: nat)
    requires i <= |text|
    ensures i <= j <= |text|
    ensures SpacesIn(text, i, j)
    ensures j < |text| ==> !IsSpace(text[j])
    decreases |text| - i
  {
    if i == |text| || !IsSpace(text[i]) then i else SpaceEnd(text, i + 1)
  }

  /** The end of the run of word characters starting at `i`. */
  function WordEnd(text: string, i: nat): (j: nat)
    requires i <= |text|
    ensures i <= j <= |text|
    ensures WordsIn(text, i, j)
    ensures j < |text| ==> !IsWord(text[j])
    decreases |text| - i
  {
    if i == |text| || !IsWord(text[i]) then i else WordEnd(text, i + 1)
  }

  /** The scanner at one position: the group Python reports, as `(start, end)`. */
  function MatchAt(text: string, p: nat): Option<(nat, nat)>
    requires p <= |text|
  {
    if !KeywordAt(text, p, OVERALL) then None
    else
      var b := SpaceEnd(text, p + |OVERALL|);
      if b == p + |OVERALL| || !KeywordAt(text, b, SENTIMENT) then None
      else
        var g0 := GroupStart(text, SpaceEnd(text, b + |SENTIMENT|));
        if g0 < |text| && IsWord(text[g0]) then Some((g0, WordEnd(text, g0))) else None
  }

  /** Past the whitespace ending at `d`: an optional colon and more whitespace. */
  function GroupStart(text: string, d: nat): nat
    requires d <= |text|
  {
    if d < |text| && text[d] == ':' then SpaceEnd(text, d + 1) else d
  }

  /** Where the colon is absent, `d` already ends a whitespace run, so the
      group starts at the end of the run from the colon's place. */
  lemma GroupStartAfterColon(text: string, d: nat, e: nat)
    requires d <= |text| && (d == |text| || !IsSpace(text[d]))
    requires e == if d < |text| && text[d] == ':' then d + 1 else d
    ensures GroupStart(text, d) == SpaceEnd(text, e)
  {
  }

  /** `re.search`: the first position from `p` on at which the scanner matches. */
  function Search(text: string, p: nat): (r: Option<(nat, nat, nat)>)
    requires p <= |text|
    ensures r.Some? ==> p <= r.value.0 <= |text| && MatchAt(text, r.value.0) == Some((r.value.1, r.value.2))
    ensures r.Some? ==> forall q :: p <= q < r.value.0 ==> MatchAt(text, q).None?
    ensures r.None? ==> forall q :: p <= q <= |text| ==> MatchAt(text, q).None?
    decreases |text| - p
  {
    match MatchAt(text, p)
    case Some((g0, g1)) => Some((p, g0, g1))
    case None => if p == |text| then None else Search(text, p + 1)
  }

  /** `parse_overall_sentiment`: the first group of the leftmost match, else "Neutral". */
  function ParseOverallSentiment(text: string): (word: string)
    ensures |word| > 0 && AllWord(word)
  {
    var r := Search(text, 0);
    if r.None? then NEUTRAL
    else
      MatchAtSound(text, r.value.0);
      GroupIsWord(text, r.value.1, r.value.2);
      text[r.value.1..r.value.2]
  }

  lemma GroupIsWord(text: string, g0: nat, g1: nat)
    requires g0 <= g1 <= |text| && WordsIn(text, g0, g1)
    ensures AllWord(text[g0..g1])
  {
    assert forall k :: 0 <= k < g1 - g0 ==> text[g0..g1][k] == text[g0 + k];
  }

  // ---------------------------------------------------------------------------
  // The scanner against the pattern
  // ---------------------------------------------------------------------------

  /** Whatever the scanner reports is a match of the pattern whose group is a
      maximal run of word characters. */
  lemma MatchAtSound(text: string, p: nat)
    requires p <= |text| && MatchAt(text, p).Some?
    ensures MatchAt(text, p).value.0 < MatchAt(text, p).value.1
    ensures MatchAt(text, p).value.1 == WordEnd(text, MatchAt(text, p).value.0)
    ensures exists b, d, e :: Decomposition(text, p, b, d, e, MatchAt(text, p).value.0, MatchAt(text, p).value.1)
  {
    var b, d := MatchAtKeywords(text, p);
    var e := if d < |text| && text[d] == ':' then d + 1 else d;
    GroupStartAfterColon(text, d, e);
    var g0 := SpaceEnd(text, e);
    var g1 := WordEnd(text, g0);
    assert Decomposition(text, p, b, d, e, g0, g1);
  }

  /** The keyword part of a scanner match: "overall", its whitespace run up to
      `b`, "sentiment" at `b` and the whitespace run after it up to `d`. */
  lemma MatchAtKeywords(text: string, p: nat) returns (b: nat, d: nat)
    requires p <= |text| && MatchAt(text, p).Some?
    ensures KeywordAt(text, p, OVERALL)
    ensures p + |OVERALL| < b <= |text| && SpacesIn(text, p + |OVERALL|, b)
    ensures KeywordAt(text, b, SENTIMENT)
    ensures b + |SENTIMENT| <= d <= |text| && SpacesIn(text, b + |SENTIMENT|, d)
    ensures d == |text| || !IsSpace(text[d])
    ensures var g0 := GroupStart(text, d);
      g0 < |text| && IsWord(text[g0]) && MatchAt(text, p) == Some((g0, WordEnd(text, g0)))
  {
    b := SpaceEnd(text, p + |OVERALL|);
    d := SpaceEnd(text, b + |SENTIMENT|);
  }

  /** The whitespace run starting at `i` cannot be cut short before a
      non-space character. */
  lemma SpaceRunEnds(text: string, i: nat, j: nat)
    requires i <= j < |text| && SpacesIn(text, i, j) && !IsSpace(text[j])
    ensures SpaceEnd(text, i) == j
    decreases j - i
  {
    if i < j {
      SpaceRunEnds(text, i + 1, j);
    }
  }

  /** Keywords start with a letter, which is not whitespace. */
  lemma KeywordStartsNonSpace(text: string, i: nat, kw: string)
    requires KeywordAt(text, i, kw) && |kw| > 0 && 'a' <= kw[0] <= 'z'
    ensures i < |text| && !IsSpace(text[i])
  {

  }

  /** Every path through the pattern at `p` has the group start the scanner
      reports, and its group ends no later than the scanner's. */
  lemma MatchAtComplete(text: string, p: nat, b: nat, d: nat, e: nat, g0: nat, g1: nat)
    requires Decomposition(text, p, b, d, e, g0, g1)
    ensures MatchAt(text, p).Some?
    ensures MatchAt(text, p).value.0 == g0 && g1 <= MatchAt(text, p).value.1
  {
    KeywordStartsNonSpace(text, b, SENTIMENT);
    SpaceRunEnds(text, p + |OVERALL|, b);
    var d' := SpaceEnd(text, b + |SENTIMENT|);
    assert IsWord(text[g0]);
    if e == d + 1 {
      SpaceRunEnds(text, b + |SENTIMENT|, d);
      SpaceRunEnds(text, e, g0);
    } else {
      SpaceRunEnds(text, b + |SENTIMENT|, g0);
    }
    assert MatchAt(text, p).value.0 == g0;
    WordRunWithin(text, g0, g1);
  }

  /** A run of word characters from `i` ends no later than `WordEnd(text, i)`. */
  lemma WordRunWithin(text: string, i: nat, j: nat)
    requires i <= j <= |text| && WordsIn(text, i, j)
    ensures j <= WordEnd(text, i)
    decreases j - i
  {
    if i < j {
      WordRunWithin(text, i + 1, j);
    }
  }

  /** The pattern matches at `p` exactly when the scanner does. */
  lemma MatchesAtIff(text: string, p: nat)
    requires p <= |text|
    ensures MatchesAt(text, p) <==> MatchAt(text, p).Some?
  {
    if MatchesAt(text, p) {
      var b, d, e, g0, g1 :| Decomposition(text, p, b, d, e, g0, g1);
      MatchAtComplete(text, p, b, d, e, g0, g1);
    }
    if MatchAt(text, p).Some? {
      MatchAtSound(text, p);
    }
  }

  /** With no match anywhere the parser answers "Neutral". */
  lemma ParseWithoutMatch(text: string)
    requires forall q :: 0 <= q <= |text| ==> !MatchesAt(text, q)
    ensures ParseOverallSentiment(text) == NEUTRAL
  {
    if Search(text, 0).Some? {
      var p := Search(text, 0).value.0;
      MatchesAtIff(text, p);
    }
  }

  /** At the leftmost match, the parser returns the whole run of word
      characters starting where every path puts the group. */
  lemma ParseLeftmostMatch(text: string, p: nat, b: nat, d: nat, e: nat, g0: nat, g1: nat)
    requires Decomposition(text, p, b, d, e, g0, g1)
    requires forall q :: 0 <= q < p ==> !MatchesAt(text, q)
    ensures ParseOverallSentiment(text) == text[g0..WordEnd(text, g0)]
    ensures g1 <= WordEnd(text, g0)
  {
    MatchAtComplete(text, p, b, d, e, g0, g1);
    forall q | 0 <= q < p ensures MatchAt(text, q).None? {
      MatchesAtIff(text, q);
    }
    SearchFindsFirst(text, 0, p);
    MatchAtSound(text, p);
  }

  /** `re.search` stops at the first position where the scanner matches. */
  lemma SearchFindsFirst(text: string, s: nat, p: nat)
    requires s <= p <= |text| && MatchAt(text, p).Some?
    requires forall q :: s <= q < p ==> MatchAt(text, q).None?
    ensures Search(text, s) == Some((p, MatchAt(text, p).value.0, MatchAt(text, p).value.1))
    decreases p - s
  {
    if s < p {
      SearchFindsFirst(text, s + 1, p);
    }
  }

  // ---------------------------------------------------------------------------
  // map_sentiment_to_score
  // ---------------------------------------------------------------------------

  /** `map_sentiment_to_score`: a case-insensitive comparison of the word. */
  function MapSentimentToScore(word: string): (score: real)
    ensures score == 10.0 <==> Lower(word) == "bullish"
    ensures score == 1.0 <==> Lower(word) == "bearish"
    ensures score == 5.0 <==> Lower(word) != "bullish" && Lower(word) != "bearish"
  {
    var lower := Lower(word);
    if lower == "bullish" then 10.0
    else if lower == "bearish" then 1.0
    else if lower == "neutral" then 5.0
    else 5.0
  }

  /** The score of any word is one of 1, 5 and 10, whatever its case. */
  lemma ScoreRange(word: string)
    ensures MapSentimentToScore(word) in {1.0, 5.0, 10.0}
    ensures MapSentimentToScore(Lower(word)) == MapSentimentToScore(word)
  {
    LowerIdempotent(word);
  }

  /** When the model's answer has no sentiment line the score is neutral. */
  lemma NoMatchScoresFive(text: string)
    requires forall q :: 0 <= q <= |text| ==> !MatchesAt(text, q)
    ensures MapSentimentToScore(ParseOverallSentiment(text)) == 5.0
  {
    ParseWithoutMatch(text);
    assert Lower(NEUTRAL) == "neutral";
  }
}
