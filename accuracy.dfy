/** The positional accuracy metric: the reference and the transcription are
    compared word by word at equal positions, ignoring case. */
module Accuracy {
  import opened Text
  import Arith

  datatype Score = Score(clarity: real, correct: nat)

  function Min(a: nat, b: nat): (m: nat)
    ensures m <= a && m <= b && (m == a || m == b)
  {
    if a <= b then a else b
  }

  function Abs(x: int): (y: nat)
    ensures y == x || y == -x
  {
    if x < 0 then -x else x
  }

  /** The number of positions below `n` where the two token lists hold the
      same word up to case. */
  function MatchCount(ref: seq<string>, trans: seq<string>, n: nat): (c: nat)
    requires n <= |ref| && n <= |trans|
    ensures c <= n
  {
    if n == 0 then 0
    else MatchCount(ref, trans, n - 1) + (if SameWord(ref[n - 1], trans[n - 1]) then 1 else 0)
  }

  /** The positions counted by `MatchCount`. */
  function MatchingPositions(ref: seq<string>, trans: seq<string>, n: nat): set<nat>
    requires n <= |ref| && n <= |trans|
  {
    set i: nat | i < n && SameWord(ref[i], trans[i])
  }

  /** The approximate word-error count: every reference word not matched at
      its position, plus the difference in length once more. */
  function Errors(refLen: nat, transLen: nat, correct: nat): (e: nat)
    requires correct <= refLen && correct <= transLen
    ensures e >= Abs(refLen - transLen)
    ensures e >= refLen - correct
    ensures e == 0 <==> correct == refLen && refLen == transLen
  {
    refLen - correct + Abs(refLen - transLen)
  }

  /** `max(0, 1 - errors / refLen)`: a score in [0, 1] that is 1 exactly when
      every reference word is matched and the lengths agree, 0 exactly when
      the errors reach the reference length, and in between the share of the
      reference length not taken up by errors. */
  function ClarityScore(refLen: nat, transLen: nat, correct: nat): (c: real)
    requires refLen > 0
    requires correct <= refLen && correct <= transLen
    ensures 0.0 <= c <= 1.0
    ensures c == 1.0 <==> correct == refLen && refLen == transLen
    ensures c == 0.0 <==> Errors(refLen, transLen, correct) >= refLen
    ensures Errors(refLen, transLen, correct) < refLen ==>
      c * refLen as real == (refLen - Errors(refLen, transLen, correct)) as real
  {
    var e := Errors(refLen, transLen, correct);
    var wer := e as real / refLen as real;
    Arith.DivMul(e as real, refLen as real);
    Arith.DivNonneg(e as real, refLen as real);
    Arith.DivAtLeastOne(e as real, refLen as real);
    if 1.0 - wer > 0.0 then 1.0 - wer else 0.0
  }

  /** The accuracy of a transcription against a reference text: an empty
      reference gives `(0.0, 0)`, otherwise the clarity score and the number
      of correctly placed words. */
  function Accuracy(referenceText: string, transcribedText: string): (s: Score)
    ensures 0.0 <= s.clarity <= 1.0
    ensures s.correct <= |Split(referenceText)| && s.correct <= |Split(transcribedText)|
  {
    var rw := Words(referenceText);
    var tw := Words(transcribedText);
    if rw == [] then Score(0.0, 0)
    else
      var c := MatchCount(rw, tw, Min(|rw|, |tw|));
      Score(ClarityScore(|rw|, |tw|, c), c)
  }

  /** The loop of `calculate_accuracy`: counts the positions, up to the
      shorter list, where the two words are equal once lower-cased. */
  method CountCorrect(referenceWords: seq<string>, transcribedWords: seq<string>)
    returns (correct: nat)
    ensures correct == MatchCount(referenceWords, transcribedWords, Min(|referenceWords|, |transcribedWords|))
  {
    var n := Min(|referenceWords|, |transcribedWords|);
    correct := 0;
    for i := 0 to n
      invariant correct == MatchCount(referenceWords, transcribedWords, i)
    {
      if Lower(referenceWords[i]) == Lower(transcribedWords[i]) {
        correct := correct + 1;
      }
    }
  }

  /** `calculate_accuracy`: tokenise both texts, return early on an empty
      reference, count the correctly placed words and score them. */
  method CalculateAccuracy(referenceText: string, transcribedText: string)
    returns (clarity: real, correct: nat)
    ensures Score(clarity, correct) == Accuracy(referenceText, transcribedText)
  {
    var referenceWords := Words(referenceText);
    var transcribedWords := Words(transcribedText);
    if referenceWords == [] {
      return 0.0, 0;
    }
    correct := CountCorrect(referenceWords, transcribedWords);
    clarity := ClarityScore(|referenceWords|, |transcribedWords|, correct);
  }

  // ---------------------------------------------------------------------
  // Lemmas

  /** Each counted match is one position below `n` where the words agree. */
  /** Moving the bound up by one adds its position exactly when the words
      there match. */
  lemma MatchingPositionsStep(ref: seq<string>, trans: seq<string>, n: nat)
    requires 0 < n <= |ref| && n <= |trans|
    ensures MatchingPositions(ref, trans, n) == MatchingPositions(ref, trans, n - 1)
      + (if SameWord(ref[n - 1], trans[n - 1]) then {n - 1} else {})
  {
  }

  lemma {:induction false} MatchCountCountsPositions(ref: seq<string>, trans: seq<string>, n: nat)
    requires n <= |ref| && n <= |trans|
    ensures MatchCount(ref, trans, n) == |MatchingPositions(ref, trans, n)|
  {
    if n > 0 {
      MatchCountCountsPositions(ref, trans, n - 1);
      MatchingPositionsStep(ref, trans, n);
      assert (n - 1) !in MatchingPositions(ref, trans, n - 1);
    }
  }

  /** Every position is counted exactly when every position matches. */
  lemma {:induction false} MatchCountFull(ref: seq<string>, trans: seq<string>, n: nat)
    requires n <= |ref| && n <= |trans|
    ensures MatchCount(ref, trans, n) == n <==>
            forall i :: 0 <= i < n ==> SameWord(ref[i], trans[i])
  {
    if n > 0 {
      MatchCountFull(ref, trans, n - 1);
    }
  }

  /** Token lists that agree word for word up to case. */
  predicate SameWords(ref: seq<string>, trans: seq<string>) {
    |ref| == |trans| && forall i :: 0 <= i < |ref| ==> SameWord(ref[i], trans[i])
  }

  /** A reference with no tokens scores `(0.0, 0)`, whatever was transcribed. */
  lemma EmptyReference(referenceText: string, transcribedText: string)
    requires AllSpace(referenceText)
    ensures Accuracy(referenceText, transcribedText) == Score(0.0, 0)
  {
    NoWordsIffAllSpace(referenceText);
  }

  /** With a non-empty reference, the clarity is exactly 1 if and only if the
      transcription's tokens equal the reference's up to case, and then every
      reference word is counted correct. */
  lemma PerfectClarityIff(referenceText: string, transcribedText: string)
    requires Split(referenceText) != []
    ensures Accuracy(referenceText, transcribedText).clarity == 1.0 <==>
            SameWords(Split(referenceText), Split(transcribedText))
    ensures SameWords(Split(referenceText), Split(transcribedText)) ==>
            Accuracy(referenceText, transcribedText).correct == |Split(referenceText)|
  {
    var rw, tw := Split(referenceText), Split(transcribedText);
    MatchCountFull(rw, tw, Min(|rw|, |tw|));
  }

  /** A reading of exactly the reference scores full clarity. */
  lemma ReadingTheReference(referenceText: string)
    requires Split(referenceText) != []
    ensures Accuracy(referenceText, referenceText) == Score(1.0, |Split(referenceText)|)
  {
    PerfectClarityIff(referenceText, referenceText);
  }

  /** A transcription with no words scores clarity 0: the missing words are
      counted once as unmatched and once more as the length difference. */
  lemma EmptyTranscription(referenceText: string, transcribedText: string)
    requires AllSpace(transcribedText)
    ensures Accuracy(referenceText, transcribedText) == Score(0.0, 0)
  {
    NoWordsIffAllSpace(transcribedText);
    var rw := Words(referenceText);
    if rw != [] {
      NoTranscriptScore(rw);
    }
  }

  /** Against no transcribed words nothing matches and clarity is 0. */
  lemma NoTranscriptScore(rw: seq<string>)
    requires rw != []
    ensures MatchCount(rw, [], Min(|rw|, 0)) == 0
    ensures ClarityScore(|rw|, 0, 0) == 0.0
  {
    assert Errors(|rw|, 0, 0) >= |rw|;
  }

  lemma {:induction false} ThreeWords(a: string, b: string, c: string)
    requires IsWord(a) && IsWord(b) && IsWord(c)
    ensures Split(a + " " + b + " " + c) == [a, b, c]
  {
    var ws := [a, b, c];
    SplitJoinWords(ws);
    assert ws[1..] == [b, c] && ws[1..][1..] == [c];
    assert JoinWords([c]) == c;
    assert JoinWords([b, c]) == b + " " + c;
    assert JoinWords(ws) == a + " " + (b + " " + c);
    assert a + " " + (b + " " + c) == a + " " + b + " " + c;
  }

  /** Tokenising is unchanged by stripping either text, so the score is
      too. */
  lemma AccuracyOfStripped(referenceText: string, transcribedText: string)
    ensures Accuracy(Strip(referenceText), Strip(transcribedText)) == Accuracy(referenceText, transcribedText)
  {
    SplitStrip(referenceText);
    SplitStrip(transcribedText);
  }

  /** Three words against three with one mismatch. */
  lemma OneMismatchInThree(ref: seq<string>, trans: seq<string>)
    requires |ref| == 3 && |trans| == 3
    requires SameWord(ref[0], trans[0]) && !SameWord(ref[1], trans[1]) && SameWord(ref[2], trans[2])
    ensures MatchCount(ref, trans, 3) == 2
    ensures ClarityScore(3, 3, 2) == 2.0 / 3.0
  {
    assert MatchCount(ref, trans, 1) == 1;
    assert MatchCount(ref, trans, 2) == 1;
    assert Errors(3, 3, 2) == 1;
  }

  /** The two example sentences as their words joined by single spaces. */
  lemma SpelledOut()
    ensures "the" + " " + "cat" + " " + "sat" == "the cat sat"
    ensures "the" + " " + "dog" + " " + "sat" == "the dog sat"
  {
  }

  /** The tokens of the two example sentences. */
  lemma CatAndDogWords(referenceText: string, transcribedText: string)
    requires referenceText == "the cat sat" && transcribedText == "the dog sat"
    ensures Split(referenceText) == ["the", "cat", "sat"]
    ensures Split(transcribedText) == ["the", "dog", "sat"]
  {
    ThreeWords("the", "cat", "sat");
    ThreeWords("the", "dog", "sat");
    SpelledOut();
  }

  /** Only the middle words of the two example sentences differ. */
  lemma CatAndDogCompared()
    ensures SameWord("the", "the") && !SameWord("cat", "dog") && SameWord("sat", "sat")
  {
    assert Lower("cat")[0] != Lower("dog")[0];
  }

  /** "the cat sat" read as "the dog sat": two words correct, one error,
      clarity 1 - 1/3. */
  lemma CatAndDog(referenceText: string, transcribedText: string)
    requires referenceText == "the cat sat" && transcribedText == "the dog sat"
    ensures Accuracy(referenceText, transcribedText) == Score(2.0 / 3.0, 2)
  {
    var ref: seq<string> := ["the", "cat", "sat"];
    var trans: seq<string> := ["the", "dog", "sat"];
    CatAndDogWords(referenceText, transcribedText);
    CatAndDogCompared();
    OneMismatchInThree(ref, trans);
  }
}
