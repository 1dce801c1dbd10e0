/**
 * The score banding of `displayATSScore` (script.js): the score ring, its
 * label and message fall in one of three bands fixed by the thresholds 80 and 60.
 */
module Banding {
  import opened Wrappers
  import Text

  datatype Band = Excellent | Good | NeedsImprovement

  /** Rank of a band: a higher band ranks higher. */
  function Rank(b: Band): nat {
    match b
    case NeedsImprovement => 0
    case Good => 1
    case Excellent => 2
  }

  /** The reference banding: at least 80 is excellent, 60 to 79 good, below 60 needs improvement. */
  function BandOf(score: int): (b: Band)
    ensures b == Excellent <==> score >= 80
    ensures b == Good <==> 60 <= score < 80
    ensures b == NeedsImprovement <==> score < 60
  {
    if score >= 80 then Excellent else if score >= 60 then Good else NeedsImprovement
  }

  /** A higher score never lands in a lower band. */
  lemma BandMonotone(s: int, t: int)
    requires s <= t
    ensures Rank(BandOf(s)) <= Rank(BandOf(t))
  {
  }

  /** `this.analysis.atsScore || 0`: a missing score is read as 0. */
  function DisplayedScore(atsScore: Option<int>): (score: int)
    ensures atsScore.Some? ==> score == atsScore.value
    ensures atsScore.None? ==> score == 0
  {
    atsScore.GetOr(0)
  }

  /** What `displayATSScore` writes: the score text, the colour class, the label and the message. */
  datatype ScoreView = ScoreView(scoreText: string, colorClass: string, labelText: string, message: string)

  function ColorClassOf(b: Band): string {
    match b
    case Excellent => "score-excellent"
    case Good => "score-good"
    case NeedsImprovement => "score-poor"
  }

  function LabelOf(b: Band): string {
    match b
    case Excellent => "Excellent Match"
    case Good => "Good Match"
    case NeedsImprovement => "Needs Improvement"
  }

  const ExcellentMessage: string := "Outstanding! Your resume is highly compatible with this job description."
  const GoodMessage: string := "Your resume is a good fit. Implement the suggestions to make it even better."
  const PoorMessage: string := "Your resume needs work to pass ATS filters. Focus on the suggestions provided."

  function MessageOf(b: Band): string {
    match b
    case Excellent => ExcellentMessage
    case Good => GoodMessage
    case NeedsImprovement => PoorMessage
  }

  /**
   * `displayATSScore`: the colour, label and message all name the band of the
   * displayed score, and the text is that score followed by a percent sign.
   */
  function DisplayATSScore(atsScore: Option<int>): (v: ScoreView)
    ensures v.scoreText == Text.IntToString(DisplayedScore(atsScore)) + "%"
    ensures v.colorClass == ColorClassOf(BandOf(DisplayedScore(atsScore)))
    ensures v.labelText == LabelOf(BandOf(DisplayedScore(atsScore)))
    ensures v.message == MessageOf(BandOf(DisplayedScore(atsScore)))
  {
    var score := atsScore.GetOr(0);
    var text := Text.IntToString(score) + "%";
    if score >= 80 then
      ScoreView(text, "score-excellent", "Excellent Match", ExcellentMessage)
    else if score >= 60 then
      ScoreView(text, "score-good", "Good Match", GoodMessage)
    else
      ScoreView(text, "score-poor", "Needs Improvement", PoorMessage)
  }

  /** The three colour classes differ (at their seventh character). */
  lemma ColorClassInjective(b: Band, c: Band)
    ensures ColorClassOf(b) == ColorClassOf(c) <==> b == c
  {
    if ColorClassOf(b) == ColorClassOf(c) {
      assert ColorClassOf(b)[6] == ColorClassOf(c)[6];
    }
  }

  /** Different bands are shown with different colour classes, so the colour identifies the band. */
  lemma ColorIdentifiesBand(s: Option<int>, t: Option<int>)
    ensures DisplayATSScore(s).colorClass == DisplayATSScore(t).colorClass
        <==> BandOf(DisplayedScore(s)) == BandOf(DisplayedScore(t))
  {
    ColorClassInjective(BandOf(DisplayedScore(s)), BandOf(DisplayedScore(t)));
  }
}
