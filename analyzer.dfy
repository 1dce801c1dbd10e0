/**
 * The state of `ResumeAnalyzer` (script.js) that decides whether an analysis
 * may start: the two input texts, the stored analysis, the loading flag and
 * the analyze button's `disabled` attribute, which the class keeps in step
 * with the other three.
 */
module Analyzer {
  import opened Wrappers
  import opened Analysis
  import Text

  const MissingInputMessage: string := "Please provide both your resume and the job description."
  const UnknownErrorMessage: string := "An unknown error occurred during analysis."

  /** `this.resumeText.trim() && this.jobDescription.trim()`, read as a truth value. */
  predicate HasContent(resumeText: string, jobDescription: string): (has: bool)
    ensures has <==> !Text.AllWhitespace(resumeText) && !Text.AllWhitespace(jobDescription)
  {
    Text.Trim(resumeText) != [] && Text.Trim(jobDescription) != []
  }

  /** `!hasContent || this.isLoading`. */
  function AnalyzeDisabled(resumeText: string, jobDescription: string, isLoading: bool): (disabled: bool)
    ensures disabled <==> Text.AllWhitespace(resumeText) || Text.AllWhitespace(jobDescription) || isLoading
  {
    !HasContent(resumeText, jobDescription) || isLoading
  }

  /** What a click on the analyze button does before the request is sent. */
  datatype ClickOutcome = Rejected(message: string) | Started

  /** How the awaited `getAiAnalysis` call ended: a parsed value (none when it is falsy) or a thrown error. */
  datatype AnalysisResponse = Returned(result: Option<AnalysisResult>) | Failed(message: string)

  /** The text the error modal shows for a failed analysis: the error's message, or a fallback when it is empty. */
  function FailureMessage(message: string): (shown: string)
    ensures shown != []
    ensures message != [] ==> shown == message
  {
    if message != [] then message else UnknownErrorMessage
  }

  class ResumeAnalyzer {
    var resumeText: string
    var jobDescription: string
    var analysis: Option<AnalysisResult>
    var isLoading: bool
    /** `#analyze-btn.disabled`. */
    var analyzeDisabled: bool

    /** The button agrees with the inputs and the loading flag. */
    ghost predicate ButtonInStep()
      reads this
    {
      analyzeDisabled == AnalyzeDisabled(resumeText, jobDescription, isLoading)
    }

    /**
     * The constructor sets the four state fields; it does not touch the
     * button, whose initial `disabled` attribute comes from the page markup.
     */
    constructor(buttonDisabled: bool)
      ensures resumeText == [] && jobDescription == [] && analysis.None? && !isLoading
      ensures analyzeDisabled == buttonDisabled
    {
      resumeText := [];
      jobDescription := [];
      analysis := None;
      isLoading := false;
      analyzeDisabled := buttonDisabled;
    }

    method UpdateAnalyzeButtonState()
      modifies this
      ensures ButtonInStep()
      ensures analyzeDisabled == AnalyzeDisabled(resumeText, jobDescription, isLoading)
      ensures resumeText == old(resumeText) && jobDescription == old(jobDescription)
      ensures analysis == old(analysis) && isLoading == old(isLoading)
    {
      analyzeDisabled := AnalyzeDisabled(resumeText, jobDescription, isLoading);
    }

    /** The `input` listener of `#resume-text`. */
    method InputResumeText(value: string)
      modifies this
      ensures resumeText == value && ButtonInStep()
      ensures jobDescription == old(jobDescription) && analysis == old(analysis) && isLoading == old(isLoading)
    {
      resumeText := value;
      UpdateAnalyzeButtonState();
    }

    /** The `input` listener of `#job-description`. */
    method InputJobDescription(value: string)
      modifies this
      ensures jobDescription == value && ButtonInStep()
      ensures resumeText == old(resumeText) && analysis == old(analysis) && isLoading == old(isLoading)
    {
      jobDescription := value;
      UpdateAnalyzeButtonState();
    }

    method SetLoadingState(loading: bool)
      modifies this
      ensures isLoading == loading && ButtonInStep()
      ensures loading ==> analyzeDisabled
      ensures resumeText == old(resumeText) && jobDescription == old(jobDescription) && analysis == old(analysis)
    {
      isLoading := loading;
      UpdateAnalyzeButtonState();
    }

    /**
     * `handleAnalyzeClick` up to the request: with either trimmed text empty
     * it shows the missing-input message and changes nothing; otherwise it
     * enters the loading state. The loading flag itself is not consulted.
     */
    method HandleAnalyzeClick() returns (outcome: ClickOutcome)
      modifies this
      ensures outcome == Rejected(MissingInputMessage) <==> !HasContent(old(resumeText), old(jobDescription))
      ensures outcome.Rejected? ==> outcome.message == MissingInputMessage && unchanged(this)
      ensures outcome.Started? ==> isLoading && analyzeDisabled && ButtonInStep()
      ensures resumeText == old(resumeText) && jobDescription == old(jobDescription) && analysis == old(analysis)
    {
      if Text.Trim(resumeText) == [] || Text.Trim(jobDescription) == [] {
        return Rejected(MissingInputMessage);
      }
      SetLoadingState(true);
      outcome := Started;
    }

    /**
     * The rest of `handleAnalyzeClick`: a truthy result is stored, a thrown
     * error is reported, and in every case the loading state ends.
     */
    method CompleteAnalysis(response: AnalysisResponse) returns (error: Option<string>)
      modifies this
      ensures !isLoading && ButtonInStep()
      ensures analyzeDisabled <==> !HasContent(resumeText, jobDescription)
      ensures response.Returned? && response.result.Some? ==> analysis == response.result
      ensures !(response.Returned? && response.result.Some?) ==> analysis == old(analysis)
      ensures error.Some? <==> response.Failed?
      ensures response.Failed? ==> error == Some(FailureMessage(response.message))
      ensures resumeText == old(resumeText) && jobDescription == old(jobDescription)
    {
      error := None;
      match response {
        case Returned(result) =>
          if result.Some? {
            analysis := result;
          }
        case Failed(message) =>
          error := Some(FailureMessage(message));
      }
      SetLoadingState(false);
    }
  }

  /** With loading off, the button is enabled exactly when a click would start an analysis. */
  lemma EnabledIffClickStarts(resumeText: string, jobDescription: string)
    ensures !AnalyzeDisabled(resumeText, jobDescription, false) <==> HasContent(resumeText, jobDescription)
  {
  }

  /** While an analysis runs the button stays disabled, whatever is typed. */
  lemma LoadingDisables(resumeText: string, jobDescription: string)
    ensures AnalyzeDisabled(resumeText, jobDescription, true)
  {
  }

  /**
   * A click, then the response: the analysis runs only between the two calls,
   * after it the button reflects the inputs alone, and a rejected click leaves
   * the analyzer as it was.
   */
  method ClickThenComplete(a: ResumeAnalyzer, response: AnalysisResponse) returns (outcome: ClickOutcome, error: Option<string>)
    modifies a
    ensures outcome.Rejected? ==> error.None? && a.analysis == old(a.analysis) && a.isLoading == old(a.isLoading)
    ensures outcome.Started? ==> !a.isLoading && a.ButtonInStep()
    ensures outcome.Started? && response.Failed? ==> error == Some(FailureMessage(response.message))
    ensures outcome.Started? && response.Returned? && response.result.Some? ==> a.analysis == response.result
    ensures outcome.Started? && !(response.Returned? && response.result.Some?) ==> a.analysis == old(a.analysis)
    ensures outcome.Rejected? <==> !HasContent(old(a.resumeText), old(a.jobDescription))
  {
    outcome := a.HandleAnalyzeClick();
    error := None;
    if outcome.Started? {
      assert a.isLoading && a.analyzeDisabled;
      error := a.CompleteAnalysis(response);
    }
  }
}
