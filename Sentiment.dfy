/** Sentiment labels for journal notes: a label from the sign of a text
    score, and the conversions between labels and the numeric scores
    exchanged with the backend.  The text-scoring library is not modelled:
    its score is a parameter `score: string -> int` (that library sums
    integer word ratings). */
module Sentiment {
  import opened Text

  datatype Label = Positive | Neutral | Negative

  /** The sign of a number: 1, 0 or -1. */
  function Sign(x: real): int
  {
    if x > 0.0 then 1 else if x < 0.0 then -1 else 0
  }

  /** `sentimentScoreToLabel`: positive scores are Positive, negative ones
      Negative, zero is Neutral. */
  function ScoreToLabel(score: real): (l: Label)
    ensures l == Positive <==> score > 0.0
    ensures l == Negative <==> score < 0.0
    ensures l == Neutral <==> score == 0.0
  {
    if score > 0.0 then Positive
    else if score < 0.0 then Negative
    else Neutral
  }

  /** `sentimentLabelToScore`: 1 for Positive, -1 for Negative, 0 otherwise. */
  function LabelToScore(l: Label): (s: int)
    ensures -1 <= s <= 1
    ensures s > 0 <==> l == Positive
    ensures s < 0 <==> l == Negative
  {
    match l
    case Positive => 1
    case Negative => -1
    case Neutral => 0
  }

  /** `analyzeSentiment(text)`: blank text is Neutral without consulting
      the scorer; other text is labelled by the sign of its score. */
  function AnalyzeSentiment(text: string, score: string -> int): (l: Label)
    ensures IsBlank(text) ==> l == Neutral
    ensures !IsBlank(text) ==> (l == Positive <==> score(text) > 0)
    ensures !IsBlank(text) ==> (l == Negative <==> score(text) < 0)
    ensures !IsBlank(text) ==> (l == Neutral <==> score(text) == 0)
  {
    if text == [] || Trim(text) == [] then Neutral
    else
      var s := score(text);
      if s > 0 then Positive
      else if s < 0 then Negative
      else Neutral
  }

  /** Converting a label to a score and back gives the label. */
  lemma LabelRoundTrip(l: Label)
    ensures ScoreToLabel(LabelToScore(l) as real) == l
  {
  }

  /** Converting a score to a label and back gives the score's sign. */
  lemma ScoreRoundTrip(score: real)
    ensures LabelToScore(ScoreToLabel(score)) == Sign(score)
  {
  }

  /** For text that is not blank, analysing it is labelling its score. */
  lemma AnalyzeIsScoreToLabel(text: string, score: string -> int)
    requires !IsBlank(text)
    ensures AnalyzeSentiment(text, score) == ScoreToLabel(score(text) as real)
  {
  }

  /** The label of text does not depend on the scorer when the text is
      blank. */
  lemma BlankIgnoresScorer(text: string, score1: string -> int, score2: string -> int)
    requires IsBlank(text)
    ensures AnalyzeSentiment(text, score1) == AnalyzeSentiment(text, score2) == Neutral
  {
  }
}
