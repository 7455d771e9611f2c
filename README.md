# Reading metrics of the dyslexia-detection script, in Dafny

The script records speech from a microphone, transcribes it with Whisper, and
reports three things about the reading: speed in words per minute, a clarity
score against a reference sentence, and a heuristic dyslexia finding. This
project models the deterministic part of that pipeline and proves its
properties:

- `Text`: whitespace tokenising as `str.strip().split()` does it, and ASCII
  lower-casing for case-insensitive word comparison.
- `Speed`: `calculate_speech_speed`, the word count and the words-per-minute
  rate. A duration of zero or less gives rate 0.
- `Accuracy`: `calculate_accuracy`. It compares words position by position,
  ignoring case, and computes the approximate error count and the clarity
  score `max(0, 1 - errors / refLen)`. The counting loop is a method proved
  against a pure specification function.
- `Diagnosis`: `detect_dyslexia`, the four-way decision table with thresholds
  80 words per minute and clarity 0.6.
- `Audio`: the FIFO chunk queue as a class, the loop in `main` that drains it,
  the "no audio" case, the concatenation of the chunks into one buffer, and
  the buffer's duration at 16000 samples per second.
- `Pipeline`: how `main` combines these once the transcription is known.
- `Arith`: three facts about real division that the others use.

Numbers are exact `real`s, not IEEE floats. Audio samples are reals as well.

## Model

| member | source | states |
|---|---|---|
| `Text.SpaceCharacters` | whisperai.py:23 | the characters `strip()` and `split()` treat as whitespace are exactly 0x09-0x0D, 0x1C-0x1F and 0x20 |
| `Text.LeadingSpaces` | whisperai.py:23 | the count of leading whitespace: every character it covers is whitespace, and the next one, if any, is not |
| `Text.TrailingSpaces` | whisperai.py:23 | the count of trailing whitespace: every character it covers is whitespace, and the one before, if any, is not |
| `Text.TrimStartDropsSpace` | whisperai.py:23 | removing one leading whitespace character first does not change the trimmed text |
| `Text.TrimEndDropsSpace` | whisperai.py:23 | removing one trailing whitespace character first does not change the trimmed text |
| `Text.TrimStart` | whisperai.py:23 | the result is a suffix of the input, everything removed is whitespace, and it does not start with whitespace |
| `Text.TrimEnd` | whisperai.py:23 | the result is a prefix of the input, everything removed is whitespace, and it does not end with whitespace |
| `Text.Strip` | whisperai.py:23 | `strip()`: neither end of the result is whitespace, and it is no longer than the input |
| `Text.StripRemovesOnlySpace` | whisperai.py:23 | `strip()` keeps the contiguous slice of the text that starts right after its leading whitespace, and everything it removes before and after that slice is whitespace |
| `Text.LeadingWord` | whisperai.py:23 | the longest whitespace-free prefix: a prefix, free of whitespace, and followed by whitespace or the end of the text |
| `Text.Split` | whisperai.py:23 | `split()` yields only non-empty tokens that contain no whitespace |
| `Text.Words` | whisperai.py:33-34 | tokenising `strip().split()` gives the same tokens as `split()` alone |
| `Text.WordCountIsRunCount` | whisperai.py:23-24 | the number of tokens equals the number of maximal non-whitespace runs, counted independently by run ends |
| `Text.NoWordsIffAllSpace` | whisperai.py:23-24 | a text has no tokens if and only if it is empty or whitespace only |
| `Text.SplitAppendSpace` | whisperai.py:23 | trailing whitespace adds no token |
| `Text.SplitAtSpace` | whisperai.py:23 | a whitespace character separates: the tokens of `a`, whitespace, `b` are the tokens of `a` followed by those of `b` |
| `Text.SplitWord` | whisperai.py:23 | a non-empty whitespace-free text is a single token, itself |
| `Text.SplitCollapseSpaces` | whisperai.py:23 | two whitespace characters in a row separate exactly as one does, so runs of whitespace yield no empty tokens |
| `Text.SplitAnySpace` | whisperai.py:23 | every whitespace character separates tokens exactly as a space does |
| `Text.SplitStrip` | whisperai.py:23 | leading and trailing whitespace does not change the tokens |
| `Text.StripEmptyIffAllSpace` | whisperai.py:103-104 | a stripped reference is empty if and only if the typed text was whitespace only |
| `Text.SplitJoinWords` | whisperai.py:23 | splitting recovers any list of well-formed words from their space-separated text (round trip) |
| `Text.LowerChar` | whisperai.py:41 | ASCII lower-casing: the result is never an upper-case letter; an upper-case letter maps to the lower-case letter 32 code points above it; other characters are unchanged |
| `Text.Lower` | whisperai.py:41 | `lower()` maps each character of the word, keeping its length |
| `Text.LowerIdempotent` | whisperai.py:41 | lower-casing twice is the same as lower-casing once |
| `Text.SameWord` | whisperai.py:41 | two words compare equal ignoring case if and only if they have the same length and agree letter by letter up to case |
| `Speed.WordsPerMinute` | whisperai.py:25-28 | a duration of zero or less gives 0; otherwise rate times duration equals words times 60; the rate is never negative and is 0 with no words |
| `Speed.CalculateSpeechSpeed` | whisperai.py:21-29 | the word count is the number of `split()` tokens and the rate is computed from that count and the duration |
| `Speed.WordCountOfSpeed` | whisperai.py:23-24 | the word count is the number of non-whitespace runs, and stripping the transcription changes neither result |
| `Speed.SilentTranscription` | whisperai.py:23-29 | empty or whitespace-only text gives 0 words at rate 0, for any duration |
| `Speed.SlowerOverLongerRecording` | whisperai.py:25-26 | for the same word count, a longer positive duration never gives a higher rate |
| `Accuracy.MatchCount` | whisperai.py:39-42 | the number of matches is at most the number of positions compared |
| `Accuracy.Errors` | whisperai.py:44 | the error count covers both the length difference and the unmatched reference words, and is 0 exactly when all words match and the lengths agree |
| `Accuracy.ClarityScore` | whisperai.py:44-46 | clarity lies in [0, 1]; it is 1 exactly when every reference word matches and the lengths agree; it is 0 exactly when the errors reach the reference length; otherwise clarity times the reference length is the reference length minus the errors, that is, clarity is `1 - errors / refLen` |
| `Accuracy.Accuracy` | whisperai.py:31-47 | clarity lies in [0, 1], and the correct count is at most the token count of either text |
| `Accuracy.CountCorrect` | whisperai.py:39-42 | the counting loop returns the number of positions among the first `min(len(ref), len(trans))` whose words agree ignoring case |
| `Accuracy.CalculateAccuracy` | whisperai.py:31-47 | the loop's results are exactly the score that `Accuracy` specifies, including the early `(0.0, 0)` for an empty reference |
| `Accuracy.MatchCountCountsPositions` | whisperai.py:40-42 | the match count is the number of positions below the bound where the two words agree ignoring case |
| `Accuracy.MatchCountFull` | whisperai.py:40-42 | every position is counted if and only if every position matches |
| `Accuracy.EmptyReference` | whisperai.py:36-37 | a reference with no tokens scores `(0.0, 0)` whatever the transcription |
| `Accuracy.PerfectClarityIff` | whisperai.py:40-46 | for a non-empty reference, clarity is exactly 1 if and only if the tokens agree word for word ignoring case; then every reference word is correct |
| `Accuracy.ReadingTheReference` | whisperai.py:40-46 | a text compared with itself scores clarity 1 with every word correct |
| `Accuracy.EmptyTranscription` | whisperai.py:44-46 | a transcription with no tokens scores `(0.0, 0)`: the missing words are counted twice, once as unmatched and once as the length difference, so the errors are twice the reference length and `max(0, 1 - 2)` gives 0 |
| `Accuracy.NoTranscriptScore` | whisperai.py:40-46 | against no transcribed words nothing matches and clarity is 0 |
| `Accuracy.AccuracyOfStripped` | whisperai.py:33-34 | stripping either text beforehand, as `main` does, does not change the score |
| `Accuracy.CatAndDogWords` | whisperai.py:33-34 | "the cat sat" and "the dog sat" split into their three words |
| `Accuracy.CatAndDogCompared` | whisperai.py:41 | of those words only "cat" and "dog" differ ignoring case |
| `Accuracy.CatAndDog` | whisperai.py:39-46 | "the cat sat" against "the dog sat" gives 2 correct words and clarity 2/3 |
| `Diagnosis.Classify` | whisperai.py:49-58 | each of the four findings holds exactly on its own quadrant for the thresholds 80 and 0.6, so the findings are exhaustive and mutually exclusive |
| `Diagnosis.Message` | whisperai.py:52-58 | a message opens with the warning sign exactly when the finding calls for attention, and with the check mark exactly when the reading is normal |
| `Diagnosis.MessageLengths` | whisperai.py:52-58 | the four messages are 59, 53, 55 and 39 characters long |
| `Diagnosis.DetectDyslexia` | whisperai.py:49-58 | the result is always one of the four fixed messages |
| `Diagnosis.MessagesDistinct` | whisperai.py:52-58 | different findings print different messages, so the message identifies the finding |
| `Diagnosis.NormalIsUpwardClosed` | whisperai.py:51-58 | a reading that is at least as fast and at least as clear as a normal one is normal too |
| `Diagnosis.Examples` | whisperai.py:51-58 | the four corner cases (60, 0.5), (60, 0.9), (120, 0.4) and (120, 0.9) |
| `Audio.ChunkQueue.constructor` | whisperai.py:64 | a new queue is empty |
| `Audio.ChunkQueue.Put` | whisperai.py:15 | a chunk is appended at the back |
| `Audio.ChunkQueue.IsEmpty` | whisperai.py:80 | reports whether the queue holds no chunks |
| `Audio.ChunkQueue.Get` | whisperai.py:81 | returns the oldest chunk and removes exactly it |
| `Audio.Concat` | whisperai.py:87 | the buffer's length is the sum of the chunk lengths |
| `Audio.Assemble` | whisperai.py:83-87 | "no audio" if and only if no chunk was drained; otherwise the buffer is the chunks laid end to end in order, as long as all of them together |
| `Audio.DrainQueue` | whisperai.py:79-81 | the drained list is the queue's contents in FIFO order, and the queue is left empty |
| `Audio.CombineAudio` | whisperai.py:79-87 | draining then assembling gives `Assemble` of the queue's old contents, and leaves the queue empty |
| `Audio.DurationSeconds` | whisperai.py:91 | the duration is non-negative, 0 exactly for an empty buffer, and duration times 16000 is the sample count |
| `Audio.ConcatAppend` | whisperai.py:79-87 | concatenation distributes over appending chunk lists, so each appended chunk extends the buffer by exactly its own samples |
| `Audio.ConcatAt` | whisperai.py:87 | sample `j` of chunk `k` sits in the buffer right after all samples of the earlier chunks, so chunk order is preserved |
| `Audio.TwoChunks` | whisperai.py:87 | `[[1, 2], [3, 4]]` assembles into `[1, 2, 3, 4]` |
| `Pipeline.Evaluate` | whisperai.py:91-110 | the duration is the buffer's and is not negative; the speed is `calculate_speech_speed` of the transcription over that duration, whether stripped or not; accuracy and diagnosis are skipped if and only if the reference is whitespace only; otherwise the score is `calculate_accuracy` of the two texts and the finding classifies the speed and clarity |
| `Pipeline.EmptyBufferReadsAsSlow` | whisperai.py:91-110 | with an empty buffer the rate is 0, so a given reference always leads to one of the two "slow" findings |
| `Pipeline.FluentReadingIsNormal` | whisperai.py:99-110 | reading exactly the reference at 80 words per minute or faster gives clarity 1, every word correct, and a normal finding |

## Left out

- `record_audio` (whisperai.py:10-19) is left out. It is a device callback on a separate thread, with `sd.sleep` polling and a stop event. That is concurrency and foreign audio-driver I/O. Only its `q.put` is modelled, as `ChunkQueue.Put`.
- Loading the Whisper model and calling `model.transcribe` are opaque foreign calls. The transcription is taken as an arbitrary input string.
- Thread start and join, `input()` and `print()` in `main` are console I/O. This includes the `:.2f` formatting and the accuracy percentage printed at line 106.
- The float32 cast and `.flatten()` (whisperai.py:87-89) are representation detail. Only the order-preserving concatenation is modelled.
- IEEE floating-point rounding is not modelled. WPM, the error ratio and clarity are exact reals. The source's integer `wpm = 0` in the zero-duration branch becomes the real 0.
- Whitespace is the ASCII part of Python's `str.isspace()`: 0x09-0x0D, 0x1C-0x1F and space. Unicode whitespace such as U+00A0 or U+2028 is not included.
- `Text.Lower`: folds only ASCII `A`-`Z`. It approximates `str.lower()`, which also folds non-ASCII letters.
- `Audio.ChunkQueue.Get`: requires a non-empty queue. The source only calls `q.get()` after `q.empty()` returned false. On an empty queue Python's `get` blocks, and blocking is not modelled.
- The queue's thread safety, and the guarantee that draining starts only after the capture thread has joined, are not modelled. The model drains a queue that nothing else touches.
- `Speed.CalculateSpeechSpeed`: its own contract ties the rate to `WordsPerMinute`. The arithmetic facts (rate times duration equals words times 60, and the rate is never negative) are stated on `WordsPerMinute`.
