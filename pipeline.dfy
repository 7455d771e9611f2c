/** What the program computes once a recording has been assembled and
    transcribed: its duration, the speech speed, and, when a reference
    sentence was entered, the accuracy and the finding. */
module Pipeline {
  import opened Text
  import Audio
  import Speed
  import Accuracy
  import Diagnosis

  datatype Assessment =
    | NoReference
    | Assessed(score: Accuracy.Score, finding: Diagnosis.Finding)

  datatype Report = Report(durationSeconds: real, speed: Speed.SpeechSpeed, assessment: Assessment)

  /** The metrics for a buffer, the text transcribed from it and the
      reference sentence typed in. Both texts are stripped first, and an
      empty reference skips accuracy and diagnosis. */
  function Evaluate(samples: seq<Audio.Sample>, transcribed: string, referenceInput: string): (r: Report)
    ensures r.durationSeconds == Audio.DurationSeconds(samples) && r.durationSeconds >= 0.0
    ensures r.speed == Speed.CalculateSpeechSpeed(transcribed, r.durationSeconds)
    ensures r.speed.wordCount == |Split(transcribed)|
    ensures r.assessment == NoReference <==> AllSpace(referenceInput)
    ensures r.assessment.Assessed? ==>
      r.assessment.score == Accuracy.Accuracy(referenceInput, transcribed)
    ensures r.assessment.Assessed? ==>
      r.assessment.finding == Diagnosis.Classify(r.speed.wpm, r.assessment.score.clarity)
  {
    var duration := Audio.DurationSeconds(samples);
    var transcription := Strip(transcribed);
    Speed.WordCountOfSpeed(transcribed, duration);
    var speed := Speed.CalculateSpeechSpeed(transcription, duration);
    var refText := Strip(referenceInput);
    StripEmptyIffAllSpace(referenceInput);
    if refText == [] then
      Report(duration, speed, NoReference)
    else
      Accuracy.AccuracyOfStripped(referenceInput, transcribed);
      var score := Accuracy.Accuracy(refText, transcription);
      Report(duration, speed, Assessed(score, Diagnosis.Classify(speed.wpm, score.clarity)))
  }

  /** An empty buffer reads at 0 words per minute, so whenever a reference
      is given the finding is one of the two "slow" ones. */
  lemma EmptyBufferReadsAsSlow(transcribed: string, referenceInput: string)
    requires !AllSpace(referenceInput)
    ensures Evaluate([], transcribed, referenceInput).assessment.finding
            in {Diagnosis.SlowAndInaccurate, Diagnosis.Slow}
  {
  }

  /** Reading exactly the reference at 80 words per minute or faster is
      found normal. */
  lemma FluentReadingIsNormal(samples: seq<Audio.Sample>, referenceInput: string)
    requires Split(referenceInput) != []
    requires Speed.WordsPerMinute(|Split(referenceInput)|, Audio.DurationSeconds(samples)) >= Diagnosis.SLOW_WPM
    ensures Evaluate(samples, referenceInput, referenceInput).assessment
            == Assessed(Accuracy.Score(1.0, |Split(referenceInput)|), Diagnosis.Normal)
  {
    NoWordsIffAllSpace(referenceInput);
    SplitStrip(referenceInput);
    Accuracy.ReadingTheReference(Strip(referenceInput));
  }
}
