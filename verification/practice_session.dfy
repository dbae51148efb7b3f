/** The two-mode practice component (Source/TEST.cpp): FullFretboard judges the exact MIDI
    number, ByString judges only the pitch class (the note name cut before its first digit,
    trimmed and lower-cased), counts successful holds per pitch class and moves on to the
    next string after the second success on the same pitch class. */
module PracticeModes {
  import opened JuceText
  import opened NoteNames
  import opened Estimator

  datatype Mode = FullFretboard | ByString

  /** Calls to collaborators whose bodies are not part of this model, recorded in order. */
  datatype Effect =
    | NoteChangeDelay // startNoteChangeDelay()
    | NextString      // setNextString()

  const CORRECT_FEEDBACK: string := "+ Correct!"

  /** The text shown for the played note: the full name, or in ByString mode the name
      with the octave cut off. The cut is the upToFirstOccurrenceOf chain (StripOctave),
      written here as the single scan that StripOctaveIsDigitFreePrefix proves equal to it. */
  function DetectedNote(mode: Mode, midi: int): string {
    if mode == ByString then DigitFreePrefix(NoteName(midi)) else NoteName(midi)
  }

  /** Whether a confident observation counts as the target in the given mode. */
  predicate Matches(mode: Mode, midi: int, targetMidi: int, cleanTarget: string) {
    if mode == FullFretboard then midi == targetMidi
    else Normalize(DetectedNote(ByString, midi)) == Normalize(cleanTarget)
  }

  /** For a note at or above MIDI 12 and a target that is one of the 12 names, a ByString match
      is exactly equality of pitch classes: the octave is ignored. */
  lemma ByStringMatchesPitchClass(midi: int, targetMidi: int, k: int)
    requires midi >= 12 && 0 <= k < |NAMES|
    ensures Matches(ByString, midi, targetMidi, NAMES[k]) <==> midi % 12 == k
  {
    StripOctaveOfNoteName(midi);
    StripOctaveIsDigitFreePrefix(NoteName(midi));
    if midi % 12 != k {
      NormalizedNamesDistinct(midi % 12, k);
    }
  }

  /** So two notes of the same pitch class, in any octaves from MIDI 12 up, match the same
      ByString targets: the octave is ignored. */
  lemma ByStringIgnoresOctave(midi: int, other: int, targetMidi: int, k: int)
    requires midi >= 12 && other >= 12 && other % 12 == midi % 12 && 0 <= k < |NAMES|
    ensures Matches(ByString, other, targetMidi, NAMES[k]) <==> Matches(ByString, midi, targetMidi, NAMES[k])
  {
    ByStringMatchesPitchClass(midi, targetMidi, k);
    ByStringMatchesPitchClass(other, targetMidi, k);
  }

  /** Notes in the lowest octave (MIDI 0 to 11) never match a ByString target: their cut-off
      name keeps the minus sign of octave -1. */
  lemma LowestOctaveNeverMatchesByString(midi: int, targetMidi: int, k: int)
    requires 0 <= midi < 12 && 0 <= k < |NAMES|
    ensures !Matches(ByString, midi, targetMidi, NAMES[k])
  {
    var played := NAMES[midi] + "-";
    assert DetectedNote(ByString, midi) == played by {
      StripOctaveOfLowestOctave(midi);
      StripOctaveIsDigitFreePrefix(NoteName(midi));
    }
    NameShape(midi);
    NameShape(k);
    NormalizedMinusName(NAMES[midi]);
    NormalizedLetterNameLast(NAMES[k]);
  }

  /** A letter name followed by a minus sign is only lower-cased, and still ends in the minus sign. */
  lemma NormalizedMinusName(s: string)
    requires LetterName(s)
    ensures |Normalize(s + "-")| == |s| + 1
    ensures Normalize(s + "-")[|s|] == '-'
  {
    var p := s + "-";
    TrimKeeps(p);
  }

  /** The normal form of a letter name does not end in a minus sign. */
  lemma NormalizedLetterNameLast(s: string)
    requires LetterName(s)
    ensures |Normalize(s)| == |s|
    ensures Normalize(s)[|s| - 1] != '-'
  {
    LetterNameChars(s);
    TrimKeeps(s);
  }

  /** notePlayCount[key]++ on a map whose missing keys read as 0: the key's count goes up by
      exactly one and every other entry is unchanged. */
  function Bump(counts: map<string, int>, key: string): (r: map<string, int>)
    ensures r.Keys == counts.Keys + {key}
    ensures r[key] == (if key in counts then counts[key] else 0) + 1
    ensures forall k :: k in counts && k != key ==> r[k] == counts[k]
  {
    counts[key := (if key in counts then counts[key] else 0) + 1]
  }

  /** The target line: "Target: " and the target's full name or bare pitch class. */
  function TargetText(mode: Mode, targetMidi: int, cleanTarget: string): string {
    "Target: " + (if mode == FullFretboard then NoteName(targetMidi) else cleanTarget)
  }

  class Session {
    const requiredStableFrames: nat
    var currentMode: Mode
    var selectedString: int
    var targetMidiNote: int
    var cleanTargetNote: string
    var stableFrameCount: nat
    var incorrectFrameCount: int
    /** Successful holds per normalized pitch class. */
    var notePlayCount: map<string, int>
    var feedbackText: string
    var targetNoteText: string
    var detectedNoteText: string
    var isWaitingForNewNote: bool
    var effects: seq<Effect>

    /** The counter is always below the quota (reaching it resets it), and every pitch class
        in the hit map has been hit at least once. */
    ghost predicate Valid()
      reads this
    {
      && stableFrameCount < requiredStableFrames
      && forall k :: k in notePlayCount ==> notePlayCount[k] >= 1
    }

    constructor (mode: Mode, required: nat, stringNumber: int, initialTarget: int, initialClean: string)
      requires required > 0
      ensures Valid()
      ensures currentMode == mode && requiredStableFrames == required && selectedString == stringNumber
      ensures targetMidiNote == initialTarget && cleanTargetNote == initialClean
      ensures stableFrameCount == 0 && incorrectFrameCount == 0 && notePlayCount == map[]
      ensures feedbackText == "" && targetNoteText == "" && detectedNoteText == ""
      ensures !isWaitingForNewNote && effects == []
    {
      requiredStableFrames := required;
      currentMode := mode;
      selectedString := stringNumber;
      targetMidiNote := initialTarget;
      cleanTargetNote := initialClean;
      stableFrameCount := 0;
      incorrectFrameCount := 0;
      notePlayCount := map[];
      feedbackText := "";
      targetNoteText := "";
      detectedNoteText := "";
      isWaitingForNewNote := false;
      effects := [];
    }

    method StartNoteChangeDelay()
      modifies this`effects
      ensures effects == old(effects) + [NoteChangeDelay]
    {
      effects := effects + [NoteChangeDelay];
    }

    method SetNextString()
      modifies this`effects
      ensures effects == old(effects) + [NextString]
    {
      effects := effects + [NextString];
    }

    /** Rewrites the target line from the current mode and target. */
    method UpdateUI()
      modifies this`targetNoteText
      ensures targetNoteText == TargetText(currentMode, targetMidiNote, cleanTargetNote)
    {
      targetNoteText := "Target: " + (if currentMode == FullFretboard then NoteName(targetMidiNote) else cleanTargetNote);
    }

    /** Draws a new target for the current mode: a MIDI number in [40, 88] for FullFretboard,
        one of the 12 octave-less names for ByString (the draw is a free choice in that domain).
        The "(String n)" suffix written first is overwritten by UpdateUI. */
    method SetRandomTargetNote()
      modifies this`targetMidiNote, this`cleanTargetNote, this`targetNoteText
      ensures currentMode == FullFretboard ==> InTargetRange(targetMidiNote) && cleanTargetNote == old(cleanTargetNote)
      ensures currentMode == ByString ==> cleanTargetNote in NAMES && targetMidiNote == old(targetMidiNote)
      ensures targetNoteText == TargetText(currentMode, targetMidiNote, cleanTargetNote)
    {
      if currentMode == FullFretboard {
        var t :| LOWEST_TARGET <= t <= HIGHEST_TARGET;
        targetMidiNote := t;
        targetNoteText := "Target: " + NoteName(targetMidiNote);
      } else {
        var i :| 0 <= i < |NAMES|;
        cleanTargetNote := NAMES[i];
        targetNoteText := "Target: " + cleanTargetNote + " (String " + IntToString(selectedString) + ")";
      }
      UpdateUI();
    }

    /** One FullFretboard frame (the exact MIDI number decides): on the target the counter
        grows, and at the quota the success feedback, the pause before a new target and a
        counter reset follow. A wrong note changes nothing. */
    method JudgeFullFretboard(midiNote: int)
      requires stableFrameCount < requiredStableFrames
      modifies this`stableFrameCount, this`incorrectFrameCount, this`feedbackText,
        this`isWaitingForNewNote, this`effects, this`targetNoteText
      ensures stableFrameCount < requiredStableFrames
      ensures midiNote != targetMidiNote ==> unchanged(this)
      ensures (midiNote == targetMidiNote && old(stableFrameCount) + 1 < requiredStableFrames) ==>
        && stableFrameCount == old(stableFrameCount) + 1 && incorrectFrameCount == 0
        && unchanged(this`feedbackText, this`isWaitingForNewNote, this`effects, this`targetNoteText)
      ensures (midiNote == targetMidiNote && old(stableFrameCount) + 1 >= requiredStableFrames) ==>
        && stableFrameCount == 0 && incorrectFrameCount == 0 && feedbackText == CORRECT_FEEDBACK
        && isWaitingForNewNote && effects == old(effects) + [NoteChangeDelay]
        && targetNoteText == TargetText(currentMode, targetMidiNote, cleanTargetNote)
    {
      if midiNote == targetMidiNote {
        stableFrameCount := stableFrameCount + 1;
        incorrectFrameCount := 0;
        if stableFrameCount >= requiredStableFrames {
          feedbackText := CORRECT_FEEDBACK;
          isWaitingForNewNote := true;
          StartNoteChangeDelay();
          stableFrameCount := 0;
          UpdateUI();
        }
      }
    }

    /** notePlayCount[key]++; the second hit of a pitch class moves on to the next string,
        a first one pauses before a new target. */
    method CountHit(key: string)
      requires forall k :: k in notePlayCount ==> notePlayCount[k] >= 1
      modifies this`notePlayCount, this`isWaitingForNewNote, this`effects
      ensures forall k :: k in notePlayCount ==> notePlayCount[k] >= 1
      ensures notePlayCount == Bump(old(notePlayCount), key)
      ensures notePlayCount[key] >= 2 ==> isWaitingForNewNote == old(isWaitingForNewNote) && effects == old(effects) + [NextString]
      ensures notePlayCount[key] < 2 ==> isWaitingForNewNote && effects == old(effects) + [NoteChangeDelay]
    {
      notePlayCount := Bump(notePlayCount, key);
      if notePlayCount[key] >= 2 {
        SetNextString();
      } else {
        isWaitingForNewNote := true;
        StartNoteChangeDelay();
      }
    }

    /** One ByString frame: the played pitch class and the target are compared after trimming
        and lower-casing. At the quota the hit is counted for that pitch class; the second hit
        moves on to the next string, a first one pauses before a new target. */
    method JudgeByString(detectedNote: string)
      requires Valid()
      modifies this`stableFrameCount, this`incorrectFrameCount, this`feedbackText,
        this`notePlayCount, this`isWaitingForNewNote, this`effects, this`targetNoteText
      ensures Valid()
      ensures Normalize(detectedNote) != Normalize(cleanTargetNote) ==> unchanged(this)
      ensures (Normalize(detectedNote) == Normalize(cleanTargetNote) && old(stableFrameCount) + 1 < requiredStableFrames) ==>
        && stableFrameCount == old(stableFrameCount) + 1 && incorrectFrameCount == 0
        && unchanged(this`feedbackText, this`notePlayCount, this`isWaitingForNewNote, this`effects, this`targetNoteText)
      ensures (Normalize(detectedNote) == Normalize(cleanTargetNote) && old(stableFrameCount) + 1 >= requiredStableFrames) ==>
        var key := Normalize(detectedNote);
        && stableFrameCount == 0 && incorrectFrameCount == 0 && feedbackText == CORRECT_FEEDBACK
        && notePlayCount == Bump(old(notePlayCount), key)
        && (notePlayCount[key] >= 2 ==> isWaitingForNewNote == old(isWaitingForNewNote) && effects == old(effects) + [NextString])
        && (notePlayCount[key] < 2 ==> isWaitingForNewNote && effects == old(effects) + [NoteChangeDelay])
        && targetNoteText == TargetText(currentMode, targetMidiNote, cleanTargetNote)
    {
      var targetNoteOnly := Normalize(cleanTargetNote);
      var note := Normalize(detectedNote);
      if note == targetNoteOnly {
        stableFrameCount := stableFrameCount + 1;
        incorrectFrameCount := 0;
        if stableFrameCount >= requiredStableFrames {
          feedbackText := CORRECT_FEEDBACK;
          CountHit(note);
          stableFrameCount := 0;
          UpdateUI();
        }
      }
    }

    /** The audio callback for one block; `obs` is what the estimator reports. */
    method GetNextAudioBlock(obs: Observation)
      requires Valid()
      modifies this
      ensures Valid()
      ensures currentMode == old(currentMode) && selectedString == old(selectedString)
      ensures targetMidiNote == old(targetMidiNote) && cleanTargetNote == old(cleanTargetNote)
      // no confident pitch: nothing changes at all
      ensures obs.NoPitch? ==> unchanged(this)
      ensures obs.Pitch? ==> detectedNoteText == "You played: " + DetectedNote(currentMode, obs.midi)
      // not the target: both counters and every other field stay as they were
      ensures obs.Pitch? && !Matches(currentMode, obs.midi, targetMidiNote, cleanTargetNote) ==>
        && stableFrameCount == old(stableFrameCount) && incorrectFrameCount == old(incorrectFrameCount)
        && notePlayCount == old(notePlayCount) && feedbackText == old(feedbackText)
        && targetNoteText == old(targetNoteText) && isWaitingForNewNote == old(isWaitingForNewNote)
        && effects == old(effects)
      // the target, below the quota: one more stable frame
      ensures (obs.Pitch? && Matches(currentMode, obs.midi, targetMidiNote, cleanTargetNote)
        && old(stableFrameCount) + 1 < requiredStableFrames) ==>
        && stableFrameCount == old(stableFrameCount) + 1 && incorrectFrameCount == 0
        && notePlayCount == old(notePlayCount) && feedbackText == old(feedbackText)
        && targetNoteText == old(targetNoteText) && isWaitingForNewNote == old(isWaitingForNewNote)
        && effects == old(effects)
      // the target, reaching the quota: success in either mode
      ensures (obs.Pitch? && Matches(currentMode, obs.midi, targetMidiNote, cleanTargetNote)
        && old(stableFrameCount) + 1 >= requiredStableFrames) ==>
        && stableFrameCount == 0 && incorrectFrameCount == 0
        && feedbackText == CORRECT_FEEDBACK
        && targetNoteText == TargetText(currentMode, targetMidiNote, cleanTargetNote)
      ensures (obs.Pitch? && currentMode == FullFretboard && obs.midi == targetMidiNote
        && old(stableFrameCount) + 1 >= requiredStableFrames) ==>
        && notePlayCount == old(notePlayCount)
        && isWaitingForNewNote && effects == old(effects) + [NoteChangeDelay]
      ensures (obs.Pitch? && currentMode == ByString && Matches(ByString, obs.midi, targetMidiNote, cleanTargetNote)
        && old(stableFrameCount) + 1 >= requiredStableFrames) ==>
        var key := Normalize(DetectedNote(ByString, obs.midi));
        && notePlayCount == Bump(old(notePlayCount), key)
        && (notePlayCount[key] >= 2 ==> isWaitingForNewNote == old(isWaitingForNewNote) && effects == old(effects) + [NextString])
        && (notePlayCount[key] < 2 ==> isWaitingForNewNote && effects == old(effects) + [NoteChangeDelay])
    {
      if obs.Pitch? {
        var midiNote := obs.midi;
        var detectedNote := DetectedNote(currentMode, midiNote);
        detectedNoteText := "You played: " + detectedNote;
        if currentMode == FullFretboard {
          assert Matches(currentMode, midiNote, targetMidiNote, cleanTargetNote) <==> midiNote == targetMidiNote;
          JudgeFullFretboard(midiNote);
        } else {
          assert Matches(currentMode, midiNote, targetMidiNote, cleanTargetNote)
            <==> Normalize(detectedNote) == Normalize(cleanTargetNote);
          JudgeByString(detectedNote);
        }
      }
    }
  }

  /** Two successes on a pitch class not counted yet, with a quota of one block: the first
      pauses before a new target, the second moves on to the next string. */
  method SecondHitMovesToNextString(s: Session, note: string)
    requires s.Valid() && s.requiredStableFrames == 1
    requires Normalize(note) == Normalize(s.cleanTargetNote) && Normalize(note) !in s.notePlayCount
    modifies s
    ensures s.Valid()
    ensures s.notePlayCount == old(s.notePlayCount)[Normalize(note) := 2]
    ensures s.isWaitingForNewNote
    ensures s.effects == old(s.effects) + [NoteChangeDelay, NextString]
  {
    s.JudgeByString(note);
    assert s.notePlayCount[Normalize(note)] == 1;
    s.JudgeByString(note);
  }
}
