/** The title/keyword heuristic of the "SEO Prediction" panel: a substring
    test on trimmed, lower-cased text, turned into a confidence of 80 or 50
    and then into a label by a strict `> 70` threshold. */
module Heuristic {
  import opened Text

  const MatchConfidence: int := 80
  const NoMatchConfidence: int := 50
  const Threshold: int := 70

  datatype Label = Optimizable | NotOptimizable

  /** `kw.strip().lower() in title.strip().lower()`; a matching keyword is,
      once trimmed, no longer than the trimmed title. */
  function KeywordInTitle(title: string, keyword: string): (r: bool)
    ensures r ==> |Strip(keyword)| <= |Strip(title)|
  {
    Contains(Lower(Strip(title)), Lower(Strip(keyword)))
  }

  /** `80 if keyword_in_title(title, keyword) else 50`. */
  function Confidence(title: string, keyword: string): (c: int)
    ensures c == MatchConfidence || c == NoMatchConfidence
  {
    if KeywordInTitle(title, keyword) then MatchConfidence else NoMatchConfidence
  }

  /** `"Optimizable" if conf > 70 else "Not Optimizable"`. */
  function LabelOf(confidence: int): (l: Label)
    ensures l == Optimizable <==> confidence > Threshold
  {
    if confidence > Threshold then Optimizable else NotOptimizable
  }

  /** The heuristic in terms of occurrences: the keyword matches exactly when
      its trimmed lower-case form occurs somewhere in the trimmed lower-case
      title. */
  lemma KeywordInTitleMeansOccurrence(title: string, keyword: string)
    ensures KeywordInTitle(title, keyword) <==>
      exists i :: OccursAt(Lower(Strip(keyword)), Lower(Strip(title)), i)
  {
    ContainsIsSubstring(Lower(Strip(title)), Lower(Strip(keyword)));
  }

  /** Whitespace padding on either side of either argument is ignored. */
  lemma KeywordInTitleIgnoresPadding(title: string, keyword: string,
                                     p1: string, q1: string, p2: string, q2: string)
    requires AllSpace(p1) && AllSpace(q1) && AllSpace(p2) && AllSpace(q2)
    ensures KeywordInTitle(p1 + title + q1, p2 + keyword + q2) == KeywordInTitle(title, keyword)
  {
    StripPadding(p1, title, q1);
    StripPadding(p2, keyword, q2);
  }

  /** Any two titles and any two keywords that agree up to ASCII case give
      the same answer. */
  lemma KeywordInTitleIgnoresCase(title: string, title': string, keyword: string, keyword': string)
    requires Lower(title) == Lower(title') && Lower(keyword) == Lower(keyword')
    ensures KeywordInTitle(title, keyword) == KeywordInTitle(title', keyword')
  {
    LowerStripCommute(title);
    LowerStripCommute(title');
    LowerStripCommute(keyword);
    LowerStripCommute(keyword');
  }

  /** In particular, upper-casing the title or the keyword changes nothing. */
  lemma KeywordInTitleUpperCase(title: string, keyword: string)
    ensures KeywordInTitle(Upper(title), Upper(keyword)) == KeywordInTitle(title, keyword)
  {
    LowerUpper(title);
    LowerUpper(keyword);
    KeywordInTitleIgnoresCase(Upper(title), title, Upper(keyword), keyword);
  }

  /** An empty or whitespace-only keyword matches every title. */
  lemma BlankKeywordMatches(title: string, keyword: string)
    requires AllSpace(keyword)
    ensures KeywordInTitle(title, keyword)
    ensures Confidence(title, keyword) == MatchConfidence
  {
    StripAllSpace(keyword);
    assert Lower(Strip(keyword)) == [];
    ContainsEmpty(Lower(Strip(title)));
  }

  /** Confidence is 80 exactly when the keyword matches and 50 otherwise; the
      label is "Optimizable" exactly when confidence exceeds 70, which is
      exactly when the keyword matches. A confidence of 70 never arises, so
      the strict threshold is never on its boundary. */
  lemma ConfidenceAndLabel(title: string, keyword: string)
    ensures Confidence(title, keyword) == MatchConfidence <==> KeywordInTitle(title, keyword)
    ensures Confidence(title, keyword) == NoMatchConfidence <==> !KeywordInTitle(title, keyword)
    ensures Confidence(title, keyword) != Threshold
    ensures LabelOf(Confidence(title, keyword)) == Optimizable <==> KeywordInTitle(title, keyword)
    ensures LabelOf(MatchConfidence) == Optimizable && LabelOf(NoMatchConfidence) == NotOptimizable
  {
  }
}
