/** The heuristic classifier: a fixed decision table on reading speed and
    clarity. */
module Diagnosis {

  /** Below this rate, in words per minute, reading counts as slow. */
  const SLOW_WPM: real := 80.0
  /** Below this clarity score, reading counts as inaccurate. */
  const LOW_CLARITY: real := 0.6

  datatype Finding = SlowAndInaccurate | Slow | PronunciationMismatch | Normal

  /** The decision table, checked in the order slow-and-inaccurate, slow,
      mismatch, normal. Each finding holds on exactly one quadrant of the
      (wpm, clarity) plane, so the four are exhaustive and exclusive. */
  function Classify(wpm: real, clarity: real): (f: Finding)
    ensures f == SlowAndInaccurate <==> wpm < SLOW_WPM && clarity < LOW_CLARITY
    ensures f == Slow <==> wpm < SLOW_WPM && clarity >= LOW_CLARITY
    ensures f == PronunciationMismatch <==> wpm >= SLOW_WPM && clarity < LOW_CLARITY
    ensures f == Normal <==> wpm >= SLOW_WPM && clarity >= LOW_CLARITY
  {
    if wpm < SLOW_WPM && clarity < LOW_CLARITY then SlowAndInaccurate
    else if wpm < SLOW_WPM then Slow
    else if clarity < LOW_CLARITY then PronunciationMismatch
    else Normal
  }

  /** The warning sign (U+26A0 with emoji presentation) that opens every
      message calling for attention. */
  const WARNING_SIGN: string := "\U{26A0}\U{FE0F}"
  /** The check mark (U+2705) that opens the normal message. */
  const CHECK_MARK: string := "\U{2705}"

  /** The message printed for each finding: the warning sign opens it
      exactly when the finding calls for attention, the check mark exactly
      when the reading is normal. */
  function Message(f: Finding): (m: string)
    ensures WARNING_SIGN <= m <==> f != Normal
    ensures CHECK_MARK <= m <==> f == Normal
  {
    var text := match f
      case SlowAndInaccurate => " Possible signs of dyslexia: slow and inaccurate reading."
      case Slow => " Reading is slow; might indicate dyslexia symptoms."
      case PronunciationMismatch => " Pronunciation mismatch; potential dyslexia symptoms."
      case Normal => " Speech speed and clarity seem normal.";
    var sign := if f == Normal then CHECK_MARK else WARNING_SIGN;
    assert (sign + text)[0] == sign[0];
    assert WARNING_SIGN[0] != CHECK_MARK[0];
    sign + text
  }

  /** `detect_dyslexia`: the message of the finding for a speed and a score;
      it is always one of the four fixed messages. */
  function DetectDyslexia(wpm: real, clarity: real): (m: string)
    ensures m in {Message(SlowAndInaccurate), Message(Slow), Message(PronunciationMismatch), Message(Normal)}
  {
    Message(Classify(wpm, clarity))
  }

  /** The number of characters in each message. */
  lemma MessageLengths(f: Finding)
    ensures |Message(f)| == match f
      case SlowAndInaccurate => 59
      case Slow => 53
      case PronunciationMismatch => 55
      case Normal => 39
  {
  }

  /** Distinct findings print distinct messages, so the message returned
      identifies the finding. */
  lemma MessagesDistinct(f: Finding, g: Finding)
    requires f != g
    ensures Message(f) != Message(g)
  {
    MessageLengths(f);
    MessageLengths(g);
  }

  /** Speeding up or reading more clearly never makes the finding worse:
      from a normal reading, a faster and clearer one is normal too. */
  lemma NormalIsUpwardClosed(wpm1: real, clarity1: real, wpm2: real, clarity2: real)
    requires wpm1 <= wpm2 && clarity1 <= clarity2
    requires Classify(wpm1, clarity1) == Normal
    ensures Classify(wpm2, clarity2) == Normal
  {
  }

  /** The four corner readings of the decision table. */
  lemma Examples()
    ensures Classify(60.0, 0.5) == SlowAndInaccurate
    ensures Classify(60.0, 0.9) == Slow
    ensures Classify(120.0, 0.4) == PronunciationMismatch
    ensures Classify(120.0, 0.9) == Normal
  {
  }
}
