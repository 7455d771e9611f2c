/** The reading-speed metric: words per minute over a recording. */
module Speed {
  import opened Text
  import Arith

  datatype SpeechSpeed = SpeechSpeed(wpm: real, wordCount: nat)

  /** `count / duration * 60` for a positive duration, and 0 otherwise. */
  function WordsPerMinute(count: nat, durationSeconds: real): (wpm: real)
    ensures durationSeconds <= 0.0 ==> wpm == 0.0
    ensures durationSeconds > 0.0 ==> wpm * durationSeconds == count as real * 60.0
    ensures wpm >= 0.0
    ensures count == 0 ==> wpm == 0.0
  {
    if durationSeconds > 0.0 then
      var perSecond := count as real / durationSeconds;
      Arith.DivMul(count as real, durationSeconds);
      assert (perSecond * 60.0) * durationSeconds == (perSecond * durationSeconds) * 60.0;
      perSecond * 60.0
    else
      0.0
  }

  /** Words spoken and words per minute for a transcription of a recording
      lasting `durationSeconds`. A duration of zero or less is a degenerate
      recording whose rate is 0, not an error. */
  function CalculateSpeechSpeed(transcription: string, durationSeconds: real): (r: SpeechSpeed)
    ensures r.wordCount == |Split(transcription)|
    ensures r.wpm == WordsPerMinute(r.wordCount, durationSeconds)
  {
    var wordCount := |Words(transcription)|;
    SpeechSpeed(WordsPerMinute(wordCount, durationSeconds), wordCount)
  }

  /** The word count is the number of maximal non-whitespace runs, and
      leading or trailing whitespace leaves both results unchanged. */
  lemma WordCountOfSpeed(transcription: string, durationSeconds: real)
    ensures CalculateSpeechSpeed(transcription, durationSeconds).wordCount == RunCount(transcription)
    ensures CalculateSpeechSpeed(Strip(transcription), durationSeconds)
         == CalculateSpeechSpeed(transcription, durationSeconds)
  {
    WordCountIsRunCount(transcription);
    SplitStrip(transcription);
  }

  /** Empty or whitespace-only text reads as no words at no speed. */
  lemma SilentTranscription(transcription: string, durationSeconds: real)
    requires AllSpace(transcription)
    ensures CalculateSpeechSpeed(transcription, durationSeconds) == SpeechSpeed(0.0, 0)
  {
    NoWordsIffAllSpace(transcription);
  }

  /** For the same number of words, a longer recording never gives a
      higher rate. */
  lemma SlowerOverLongerRecording(count: nat, d1: real, d2: real)
    requires 0.0 < d1 <= d2
    ensures WordsPerMinute(count, d2) <= WordsPerMinute(count, d1)
  {
    var n := count as real * 60.0;
    var w1, w2 := WordsPerMinute(count, d1), WordsPerMinute(count, d2);
    assert w1 * d1 == n && w2 * d2 == n;
    assert w2 * d1 <= w2 * d2;
    assert (w2 - w1) * d1 <= 0.0;
  }
}
