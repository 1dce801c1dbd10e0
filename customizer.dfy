/**
 * The `ResumeCustomizer` page component (app/page.tsx): its four pieces of
 * React state, the analyze guard, the button's `disabled` predicate and the
 * score colour, label and alert text.
 */
module Customizer {
  import opened Wrappers
  import Banding

  datatype EnhancedSection = EnhancedSection(section: string, original: string, enhanced: string)

  /** The page's own `AnalysisResult` interface. */
  datatype PageAnalysis = PageAnalysis(
    atsScore: int,
    matchedKeywords: seq<string>,
    missingKeywords: seq<string>,
    suggestions: seq<string>,
    skillGaps: seq<string>,
    enhancedSections: seq<EnhancedSection>)

  /** The component state: `resume`, `jobDescription`, `analysis` and `isAnalyzing`. */
  datatype PageState = PageState(
    resume: string,
    jobDescription: string,
    analysis: Option<PageAnalysis>,
    isAnalyzing: bool)

  /** The initial state: empty inputs, no analysis, not analyzing. */
  function InitialState(): (st: PageState)
    ensures st.resume == [] && st.jobDescription == [] && st.analysis.None? && !st.isAnalyzing
  {
    PageState("", "", None, false)
  }

  /**
   * `analyzeResume`, up to the timer: it does nothing unless both inputs are
   * non-empty (untrimmed), and otherwise only raises `isAnalyzing`.
   */
  function AnalyzeResume(st: PageState): (st': PageState)
    ensures st.resume == [] || st.jobDescription == [] ==> st' == st
    ensures st.resume != [] && st.jobDescription != [] ==>
              st' == st.(isAnalyzing := true)
  {
    if st.resume == [] || st.jobDescription == [] then st
    else st.(isAnalyzing := true)
  }

  /** The timer callback: the result is stored and `isAnalyzing` drops. */
  function CompleteAnalysis(st: PageState, result: PageAnalysis): (st': PageState)
    ensures st'.analysis == Some(result) && !st'.isAnalyzing
    ensures st'.resume == st.resume && st'.jobDescription == st.jobDescription
  {
    st.(analysis := Some(result), isAnalyzing := false)
  }

  /**
   * The analyze button's `disabled` attribute: the button is enabled exactly
   * when clicking it would start an analysis that is not already running.
   */
  function ButtonDisabled(st: PageState): (disabled: bool)
    ensures !disabled <==> !st.isAnalyzing && AnalyzeResume(st).isAnalyzing
  {
    st.resume == [] || st.jobDescription == [] || st.isAnalyzing
  }

  /**
   * Between start and completion the button stays disabled and the old
   * analysis is untouched; completion stores the result and re-enables the button.
   */
  lemma {:induction false} AnalyzeRoundTrip(st: PageState, result: PageAnalysis)
    requires !ButtonDisabled(st)
    ensures var running := AnalyzeResume(st);
            running.isAnalyzing && ButtonDisabled(running) && running.analysis == st.analysis
            && var done := CompleteAnalysis(running, result);
               done.analysis == Some(result) && !done.isAnalyzing && !ButtonDisabled(done)
  {
  }

  /** `getScoreColor`. */
  function ScoreColor(score: int): (c: string)
    ensures c == ColorOfBand(Banding.BandOf(score))
  {
    if score >= 80 then "text-green-600"
    else if score >= 60 then "text-yellow-600"
    else "text-red-600"
  }

  /** `getScoreLabel`. */
  function ScoreLabel(score: int): (l: string)
    ensures l == LabelOfBand(Banding.BandOf(score))
  {
    if score >= 80 then "Excellent"
    else if score >= 60 then "Good"
    else "Needs Improvement"
  }

  /** The suffix of the score alert. */
  function AlertSuffix(score: int): (s: string)
    ensures s == AlertOfBand(Banding.BandOf(score))
  {
    if score >= 80 then " Excellent work!"
    else if score >= 60 then " Good, but there's room for improvement."
    else " Consider implementing the suggestions below."
  }

  function ColorOfBand(b: Banding.Band): string {
    match b
    case Excellent => "text-green-600"
    case Good => "text-yellow-600"
    case NeedsImprovement => "text-red-600"
  }

  function LabelOfBand(b: Banding.Band): string {
    match b
    case Excellent => "Excellent"
    case Good => "Good"
    case NeedsImprovement => "Needs Improvement"
  }

  function AlertOfBand(b: Banding.Band): string {
    match b
    case Excellent => " Excellent work!"
    case Good => " Good, but there's room for improvement."
    case NeedsImprovement => " Consider implementing the suggestions below."
  }

  /** Each of the three texts tells the bands apart, at one character. */
  lemma BandTextsInjective(b: Banding.Band, c: Banding.Band)
    ensures ColorOfBand(b) == ColorOfBand(c) <==> b == c
    ensures LabelOfBand(b) == LabelOfBand(c) <==> b == c
    ensures AlertOfBand(b) == AlertOfBand(c) <==> b == c
  {
    if ColorOfBand(b) == ColorOfBand(c) {
      assert ColorOfBand(b)[5] == ColorOfBand(c)[5];
    }
    if LabelOfBand(b) == LabelOfBand(c) {
      assert LabelOfBand(b)[0] == LabelOfBand(c)[0];
    }
    if AlertOfBand(b) == AlertOfBand(c) {
      assert AlertOfBand(b)[1] == AlertOfBand(c)[1];
    }
  }

  /** Colour, label and alert of one score always name the same band. */
  lemma ColorLabelAlertAgree(s: int, t: int)
    ensures ScoreColor(s) == ScoreColor(t) <==> ScoreLabel(s) == ScoreLabel(t)
    ensures ScoreLabel(s) == ScoreLabel(t) <==> AlertSuffix(s) == AlertSuffix(t)
  {
    BandTextsInjective(Banding.BandOf(s), Banding.BandOf(t));
  }
}
