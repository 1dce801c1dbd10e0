/**
 * The analysis record the ResumeAnalyzer receives from its provider, and the
 * structured enhanced résumé inside it that both exporters consume.
 */
module Analysis {
  import opened Wrappers
  import Text

  /**
   * One entry of a section. `subheader` is the empty string when the entry has
   * none: the exporters test it for JavaScript truthiness, under which a
   * missing and an empty subheader behave alike.
   */
  datatype Item = Item(header: string, subheader: string, points: seq<string>)

  predicate HasSubheader(item: Item) {
    item.subheader != []
  }

  datatype Section = Section(title: string, items: seq<Item>)

  datatype Resume = Resume(name: string, contact: seq<string>, summary: string, sections: seq<Section>)

  /** `atsScore` is `None` when the provider returned no score. */
  datatype AnalysisResult = AnalysisResult(
    atsScore: Option<int>,
    matchedKeywords: seq<string>,
    missingKeywords: seq<string>,
    suggestions: seq<string>,
    skillGaps: seq<string>,
    enhancedResume: Option<Resume>)

  /** Total number of items over a list of sections. */
  function ItemCount(sections: seq<Section>): nat
  {
    if sections == [] then 0 else |sections[0].items| + ItemCount(sections[1..])
  }

  /** Total number of bullet points over a list of items. */
  function PointCount(items: seq<Item>): nat
  {
    if items == [] then 0 else |items[0].points| + PointCount(items[1..])
  }

  /** Number of items that carry a subheader. */
  function SubheaderCount(items: seq<Item>): nat
  {
    if items == [] then 0 else (if HasSubheader(items[0]) then 1 else 0) + SubheaderCount(items[1..])
  }

  const ScorePrefix: string := "ATS Score: "
  const MissingScore: string := "undefined"

  /**
   * `ATS Score: ${atsScore}%`: the prefix, then the score's decimal text, or
   * `undefined` for a missing score, then a percent sign.
   */
  function ScoreText(atsScore: Option<int>): (t: string)
    ensures |t| > |ScorePrefix| && t[..|ScorePrefix|] == ScorePrefix && t[|t| - 1] == '%'
    ensures atsScore.Some? ==> t[|ScorePrefix|..|t| - 1] == Text.IntToString(atsScore.value)
    ensures atsScore.None? ==> t[|ScorePrefix|..|t| - 1] == MissingScore
  {
    var value := match atsScore case Some(n) => Text.IntToString(n) case None => MissingScore;
    var t := ScorePrefix + value + "%";
    assert t[|ScorePrefix|..|t| - 1] == value;
    t
  }

  /** The score line tells every score apart, and a missing score from every number. */
  lemma ScoreTextInjective(a: Option<int>, b: Option<int>)
    requires ScoreText(a) == ScoreText(b)
    ensures a == b
  {
    if a.Some? && b.Some? {
      Text.IntToStringInjective(a.value, b.value);
    }
  }
}
