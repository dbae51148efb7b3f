# FretIQ note-judgment core in Dafny

FretIQ is a guitar ear-training application. An audio callback receives blocks of
microphone samples. A pitch estimator turns each block into a MIDI note number. The
application then judges whether the player is holding the target note long enough.
This project models the part of FretIQ that decides, block by block, what happens next.

- **The FullFretboard trainer** (`Source/MainComponent.cpp`, module `FretboardTrainer`):
  - A signal gate resets the stability counter when a block is rejected.
  - Every accepted block is copied into a 2048-slot circular buffer and into the
    estimator's 512-sample input vector, zero-padded.
  - The detected MIDI number is compared with the target.
  - After `requiredStableFrames` consecutive matches, a new target is drawn from MIDI 40 to 88;
    the counter is not reset (see Findings).
- **The two-mode practice component** (`Source/TEST.cpp`, module `PracticeModes`):
  - FullFretboard mode judges the exact MIDI number.
  - ByString mode judges only the pitch class. That is the note name cut before its first
    digit, then trimmed and lower-cased.
  - ByString mode counts successful holds per pitch class. From the second success on the
    same pitch class on, it moves to the next string; the first success pauses before a new
    target.
- **Note naming** (`midiNoteNumberToNoteName`, module `NoteNames`):
  - C++ truncating `/` and `%` are written out.
  - JUCE's `StringArray` lookups are written out, including the empty string for an index
    out of range.
- **The JUCE string operations the judgment relies on** (module `JuceText`): `String(int)`,
  `upToFirstOccurrenceOf`, `trim` and `toLowerCase`.
- **The estimator's verdict** for a block (module `Estimator`): no confident pitch, or a
  confident MIDI number.

Random draws are free choices within the source's range. The estimator, the floating-point
RMS gate and the frequency-to-MIDI conversion are inputs to the model. The bodies of
`startNoteChangeDelay` and `setNextString`, called from `Source/TEST.cpp`, are not part of
this model, so the calls are recorded in an effect log.

The two-mode component's callback differs from the FullFretboard trainer's, and the model
keeps the differences:

- In FullFretboard mode a wrong note does not reset the stability counter: the code has no
  else branch.
- The callback's own code does not draw a new target on a success; it runs only `updateUI`
  (what `startNoteChangeDelay` and `setNextString` go on to do is not part of this model).
- The callback's own code never resets `notePlayCount`.
- It has no signal gate, so a quiet block never resets the stability counter.
- It never reads the incoming audio block: nothing is copied into a circular buffer or into
  the estimator input, so `PracticeModes.Session.GetNextAudioBlock` takes only the
  estimator's verdict.

## Model

| member | source | states |
|---|---|---|
| JuceText.NatToString | Source/MainComponent.cpp:227 | the decimal rendering is non-empty, all digits, and starts with '0' only for 0 |
| JuceText.ParseNatToString | Source/MainComponent.cpp:227 | reading the digits back gives the number (round trip) |
| JuceText.IntToString | Source/MainComponent.cpp:227 | `juce::String(int)` is non-empty and starts with '-' exactly for negative numbers |
| JuceText.ParseIntToString | Source/MainComponent.cpp:227 | the digits after the optional minus sign parse back to the magnitude |
| JuceText.UpToFirstSpec | Source/TEST.cpp:74 | `upToFirstOccurrenceOf(c, false, false)` is the longest prefix without c: a prefix, free of c, ending at the first c or at the end |
| JuceText.UpToFirstOfEachSpec | Source/TEST.cpp:74-83 | the chained cuts leave a prefix holding none of the cut characters, ending just before one of them or at the end |
| JuceText.TrimStartSpec | Source/TEST.cpp:102-103 | trimming the start removes exactly the leading whitespace |
| JuceText.TrimEndSpec | Source/TEST.cpp:102-103 | trimming the end removes exactly the trailing whitespace |
| JuceText.TrimSpec | Source/TEST.cpp:102-103 | a trimmed string neither starts nor ends with whitespace |
| JuceText.TrimKeeps | Source/TEST.cpp:102-103 | a string without whitespace at either end is left unchanged by `trim` |
| JuceText.ToLower | Source/TEST.cpp:102-103 | lower-casing keeps the length |
| NoteNames.CppDiv12 | Source/MainComponent.cpp:221 | `/ 12` truncates toward zero: the quotient times 12 lies within 12 of the number, on the side of zero (below it for a non-negative number, above it for a negative one) |
| NoteNames.CppRem12 | Source/MainComponent.cpp:220 | `% 12` takes the dividend's sign and lies strictly between -12 and 12; quotient times 12 plus remainder gives the number back; for a non-negative number it is the ordinary remainder |
| NoteNames.IndexOfFromSpec | Source/MainComponent.cpp:222-226 | `indexOf` returns the first index holding the name, and -1 exactly when no index holds it |
| NoteNames.NamesDistinct | Source/MainComponent.cpp:218-219 | the 12 note names are pairwise distinct |
| NoteNames.IndexOfName | Source/MainComponent.cpp:222-226 | every name is found at its own position |
| NoteNames.IndexOfDetour | Source/MainComponent.cpp:222-226 | the `indexOf` round trip returns the name at the index, or "" for an index out of range |
| NoteNames.NoteNameOfNonNegative | Source/MainComponent.cpp:217-228 | for MIDI ≥ 0 the name is NAMES[m mod 12] followed by the octave m / 12 - 1 |
| NoteNames.NoteNameOfNegative | Source/MainComponent.cpp:217-228 | for negative MIDI numbers truncation leaves the pitch class "C" for multiples of 12 and "" otherwise |
| NoteNames.SmallOctave | Source/MainComponent.cpp:217-228 | from MIDI 12 to 131 the octave is a single digit |
| NoteNames.NoteNameExamples | Source/MainComponent.cpp:217-228 | 60 is "C4", 69 "A4", 61 "C#4", 40 "E2", 88 "E6" |
| NoteNames.OctaveUp | Source/MainComponent.cpp:217-228 | twelve semitones up keep the pitch class and raise the octave by one |
| NoteNames.StripOctaveIsLongestDigitFreePrefix | Source/TEST.cpp:72-84 | the ten-call chain yields the longest digit-free prefix of the name |
| NoteNames.DigitFreePrefixUnique | Source/TEST.cpp:72-84 | that prefix is unique |
| NoteNames.DigitFreePrefixSpec | Source/TEST.cpp:72-84 | the single scan up to the first digit also yields the longest digit-free prefix |
| NoteNames.StripOctaveIsDigitFreePrefix | Source/TEST.cpp:72-84 | the chain and the single scan agree on every string |
| NoteNames.StripOctaveOfConcat | Source/TEST.cpp:72-84 | a digit-free text followed by a digit is cut back to that text |
| NoteNames.StripOctaveOfNoteName | Source/TEST.cpp:69-84 | from MIDI 12 up, cutting the octave off a note name gives back its pitch class |
| NoteNames.StripOctaveOfLowestOctave | Source/TEST.cpp:69-84 | for MIDI 0 to 11 (octave -1) the minus sign survives the cut: 0 gives "C-" |
| NoteNames.NormalizedLetterName | Source/TEST.cpp:102-103 | trimming and lower-casing a note name keep its length, lower-case its letter and keep the '#' of a sharp name |
| NoteNames.NormalizedNamesDistinct | Source/TEST.cpp:102-105 | the normalised forms of the 12 names are distinct |
| FretboardTrainer.Slot | Source/MainComponent.cpp:123 | the cursor advanced by i samples is a slot of the buffer |
| FretboardTrainer.Ring | Source/MainComponent.cpp:121-124 | writing samples one at a time at the advancing cursor keeps the buffer at 2048 slots |
| FretboardTrainer.RingLatest | Source/MainComponent.cpp:121-124 | each of the last 2048 samples written sits at old cursor + i (mod 2048) |
| FretboardTrainer.RingLatestAll | Source/MainComponent.cpp:121-124 | all of the last 2048 samples written sit at their slots |
| FretboardTrainer.RingUnwritten | Source/MainComponent.cpp:121-124 | a slot no sample lands on keeps its value |
| FretboardTrainer.RingKeepsUnwrittenSlots | Source/MainComponent.cpp:121-124 | with fewer than 2048 samples, every slot outside the written stretch keeps its value |
| FretboardTrainer.RingHoldsLatestInOrder | Source/MainComponent.cpp:121-124 | after 2048 samples or more, reading from the new cursor gives the last 2048 samples in arrival order |
| FretboardTrainer.FeedAppend | Source/MainComponent.cpp:115-165 | judging two runs in a row is judging the first and continuing from its count |
| FretboardTrainer.HoldBuildsUp | Source/MainComponent.cpp:145-148 | holding the target below the quota raises the count by one per block and draws nothing |
| FretboardTrainer.HoldFiresOnce | Source/MainComponent.cpp:145-156 | from zero, `requiredStableFrames` matching blocks fire exactly one new target, on the last block |
| FretboardTrainer.NearMissResets | Source/MainComponent.cpp:157-158 | a wrong note one block short of the quota resets the count and fires nothing |
| FretboardTrainer.GateRejectionResets | Source/MainComponent.cpp:115-118 | a gate rejection after any run that has not fired resets the count |
| FretboardTrainer.UnconfidentBlocksChangeNothing | Source/MainComponent.cpp:141 | blocks without a confident pitch never move the count |
| FretboardTrainer.NextTargetFiresAtOnce | Source/MainComponent.cpp:146-156 | as written, after one success the next target fires after a single matching block |
| FretboardTrainer.JudgeBlockResetting | Source/MainComponent.cpp:146-156 | the corrected judgment returns a count of 0 whenever it fires, and otherwise agrees with the code as written |
| FretboardTrainer.NextTargetTakesTheQuota | Source/MainComponent.cpp:146-156 | with the reset, every new target again needs exactly `requiredStableFrames` matching blocks |
| FretboardTrainer.Trainer.constructor | Source/MainComponent.cpp:35-37 | the buffer has 2048 zeroed slots, the cursor is 0, and the estimator input has 512 zeroed samples |
| FretboardTrainer.Trainer.WriteRing | Source/MainComponent.cpp:120-124 | the buffer becomes Ring of its old contents; the last min(n, 2048) samples sit at old cursor + i; with fewer samples every other slot is unchanged; the cursor advances by n mod 2048 |
| FretboardTrainer.Trainer.FillEstimatorInput | Source/MainComponent.cpp:126-136 | the first min(n, length) entries are the samples and the rest are zero |
| FretboardTrainer.Trainer.SetRandomTargetNote | Source/MainComponent.cpp:230-235 | the new target lies in [40, 88] |
| FretboardTrainer.Trainer.GetNextAudioBlock | Source/MainComponent.cpp:94-165 | counter and target follow the one-block judgment. A rejection resets the counter and writes nothing. An accepted block is written to both buffers. No confident pitch changes nothing. A match counts up and a mismatch resets. The quota draws a target in range and, as the code is written, leaves the counter at the quota (see Findings) |
| PracticeModes.Matches | Source/TEST.cpp:88-105 | a confident note counts as the target by exact MIDI number in FullFretboard mode, and by normalised octave-less name in ByString mode |
| PracticeModes.ByStringMatchesPitchClass | Source/TEST.cpp:100-105 | from MIDI 12 up, a ByString match with one of the 12 names holds exactly when the pitch classes agree |
| PracticeModes.ByStringIgnoresOctave | Source/TEST.cpp:100-105 | two notes of the same pitch class, in any octaves from MIDI 12 up, match the same ByString targets |
| PracticeModes.LowestOctaveNeverMatchesByString | Source/TEST.cpp:72-105 | notes from MIDI 0 to 11 never match a ByString target, because the minus sign of octave -1 remains |
| PracticeModes.Bump | Source/TEST.cpp:111 | `notePlayCount[key]++` raises that key's count by one (missing keys read as 0) and changes no other entry |
| PracticeModes.Session.constructor | Source/TEST.cpp:28-35 | all counters are zero, all texts empty, the hit map empty, no effect recorded |
| PracticeModes.Session.StartNoteChangeDelay | Source/TEST.cpp:95 | records the pause before a new target |
| PracticeModes.Session.SetNextString | Source/TEST.cpp:114 | records the move to the next string |
| PracticeModes.Session.UpdateUI | Source/TEST.cpp:147-152 | the target line is "Target: " plus the full target name or the bare pitch class |
| PracticeModes.Session.SetRandomTargetNote | Source/TEST.cpp:128-145 | FullFretboard draws a MIDI target in [40, 88]; ByString draws one of the 12 names; the target line is rewritten by `updateUI` |
| PracticeModes.Session.JudgeFullFretboard | Source/TEST.cpp:88-99 | a wrong note changes nothing; a match below the quota counts up and clears the wrong-frame count; at the quota it shows "+ Correct!", waits, records the pause, resets the counter and rewrites the target line |
| PracticeModes.Session.CountHit | Source/TEST.cpp:111-118 | the hit map is bumped; every hit from the second on records the next string, the first waits and records the pause; all counts stay ≥ 1 |
| PracticeModes.Session.JudgeByString | Source/TEST.cpp:100-124 | the normalised names are compared; a mismatch changes nothing; a match counts up; at the quota it shows "+ Correct!", counts the hit under the normalised name, resets the counter and rewrites the target line |
| PracticeModes.Session.GetNextAudioBlock | Source/TEST.cpp:62-126 | no confident pitch changes nothing. Otherwise the shown note is the full or octave-less name. A non-match changes nothing else. A match below the quota counts up. At the quota: success feedback, counter reset and the mode's follow-up. The counter stays below the quota |
| PracticeModes.SecondHitMovesToNextString | Source/TEST.cpp:100-124 | with a quota of one block, two frames of a pitch class not yet counted first pause before a new target and then move on to the next string, and the pitch class has two hits |

## Left out

- Floating-point RMS and peak, `frequencyToMidiNoteNumber` and the aubio estimator (`detectPitch`, confidence): the gate's verdict and the estimator's rounded MIDI number are inputs, because they are floating-point and foreign code.
- FretboardTrainer.Trainer.GetNextAudioBlock: an empty block gives a NaN RMS in C++ and passes the gate; the model takes the gate's verdict as given and does not derive it.
- aubio initialisation and its failure path (`initializeAubio`), `Source/Main.cpp`, and the JUCE application shell: these are foreign code and window setup.
- Logging, `paint`, `mouseDown`, `keyPressed`, `timerCallback`, `prepareToPlay`, `releaseResources`, `repaint` and the throttled log counter: they have no effect on the judged state.
- FretboardTrainer.Trainer.SetRandomTargetNote: states the range of the draw, not that it is uniform; the random engine is modelled as a free choice.
- PracticeModes.Session.SetRandomTargetNote: states the domain of the draw, not that it is uniform.
- The bodies of `startNoteChangeDelay` and `setNextString` are not part of this model: only the calls are recorded in `effects`, and the model assumes that these calls leave every other field of the session unchanged. So the contracts of PracticeModes.Session.JudgeFullFretboard, CountHit, JudgeByString and GetNextAudioBlock, which say that `selectedString`, `targetMidiNote`, `cleanTargetNote` and `notePlayCount` are kept on those paths, hold for the callback's own code only.
- FretboardTrainer.Trainer.GetNextAudioBlock: `stableFrameCount` is an unbounded natural number, so the 32-bit overflow after about 2^31 matching blocks is not modelled.
- PracticeModes.Session.GetNextAudioBlock: `stableFrameCount` is an unbounded natural number, so 32-bit overflow is not modelled.
- JuceText.ToLower: lower-cases ASCII letters only, with no Unicode case mapping, because note names are ASCII.
- The initial targets and mode of each component are constructor parameters, because the header of the two-mode component is not part of this model. For the same reason, that `stableFrameCount` starts at 0, the texts start empty and `notePlayCount` starts empty is an assumption of PracticeModes.Session.constructor and FretboardTrainer.Trainer.constructor, not something the cited lines show; the invariant that the counter stays below `requiredStableFrames` rests on it.
- `notePlayCount` is a map whose missing keys read as 0, matching how `operator[]` inserts a default-constructed count.
- Concurrency between the audio thread and the UI thread: the model runs each callback atomically.

## Findings

| source | as written | input that shows it | evidently intended | confidence | as-written member | corrected member |
|---|---|---|---|---|---|---|
| Source/MainComponent.cpp:146-156 | reaching `requiredStableFrames` draws a new target but leaves `stableFrameCount` at the quota | with the quota at 5: hold target t for 5 blocks (count 5, new target t'), then play t' for one block; the count becomes 6 ≥ 5 and a third target is drawn at once | reset the counter on success, so that every target must be held for the quota, as `Source/TEST.cpp:120` does | not executed; high | FretboardTrainer.NextTargetFiresAtOnce | FretboardTrainer.JudgeBlockResetting |
