/** midiNoteNumberToNoteName and the digit-stripping that turns a note name into its
    pitch class, with C++'s truncating integer division and JUCE's StringArray
    indexing (an out-of-range index yields the empty string) written out. */
module NoteNames {
  import opened JuceText

  /** The fixed table of the 12 pitch-class symbols, C first. */
  const NAMES: seq<string> := ["C", "C#", "D", "D#", "E", "F", "F#", "G", "G#", "A", "A#", "B"]

  /** C++ `a / 12`, which truncates toward zero: the quotient is the multiple of 12 nearest
      to a on the side of zero. */
  function CppDiv12(a: int): (q: int)
    ensures a >= 0 ==> 0 <= q && q * 12 <= a < q * 12 + 12
    ensures a < 0 ==> q <= 0 && q * 12 - 12 < a <= q * 12
  {
    if a >= 0 then a / 12 else -((-a) / 12)
  }

  /** C++ `a % 12`: the remainder takes the sign of the dividend, so that
      CppDiv12(a) * 12 + CppRem12(a) == a. */
  function CppRem12(a: int): (r: int)
    ensures CppDiv12(a) * 12 + r == a
    ensures -12 < r < 12
    ensures a >= 0 ==> r == a % 12
    ensures a < 0 ==> r <= 0
  {
    a - CppDiv12(a) * 12
  }

  /** StringArray::operator[]: the element at i, or the empty string when i is out of range. */
  function NameAt(i: int): string {
    if 0 <= i < |NAMES| then NAMES[i] else ""
  }

  /** StringArray::indexOf searching from position k: the first index holding s, or -1. */
  function IndexOfFrom(s: string, k: nat): int
    requires k <= |NAMES|
    decreases |NAMES| - k
  {
    if k == |NAMES| then -1
    else if NAMES[k] == s then k
    else IndexOfFrom(s, k + 1)
  }

  function IndexOf(s: string): int {
    IndexOfFrom(s, 0)
  }

  /** The search returns the first index from k on that holds s, and -1 exactly when no
      index from k on holds it. */
  lemma {:induction false} IndexOfFromSpec(s: string, k: nat)
    requires k <= |NAMES|
    ensures IndexOfFrom(s, k) == -1 || (k <= IndexOfFrom(s, k) < |NAMES| && NAMES[IndexOfFrom(s, k)] == s)
    ensures IndexOfFrom(s, k) == -1 <==> forall j :: k <= j < |NAMES| ==> NAMES[j] != s
    ensures IndexOfFrom(s, k) != -1 ==> forall j :: k <= j < IndexOfFrom(s, k) ==> NAMES[j] != s
    decreases |NAMES| - k
  {
    if k < |NAMES| && NAMES[k] != s {
      IndexOfFromSpec(s, k + 1);
    }
  }

  lemma NamesDistinct(i: int, j: int)
    requires 0 <= i < |NAMES| && 0 <= j < |NAMES| && i != j
    ensures NAMES[i] != NAMES[j]
  {
    assert |NAMES[i]| != |NAMES[j]| || NAMES[i][0] != NAMES[j][0];
  }

  /** Since the 12 names are distinct, indexOf finds every name at its own position. */
  lemma IndexOfName(i: int)
    requires 0 <= i < |NAMES|
    ensures IndexOf(NAMES[i]) == i
  {
    var r := IndexOf(NAMES[i]);
    IndexOfFromSpec(NAMES[i], 0);
    if r < i {
      NamesDistinct(r, i);
    }
  }

  /** The indexOf round trip in midiNoteNumberToNoteName changes nothing: it returns the name at i
      for an index in range, and the empty string (indexOf("") is -1) for one out of range. */
  lemma IndexOfDetour(i: int)
    ensures NameAt(IndexOf(NameAt(i))) == NameAt(i)
  {
    if !(0 <= i < |NAMES|) {
      IndexOfFromSpec("", 0);
      forall j | 0 <= j < |NAMES| ensures NAMES[j] != "" {
        assert |NAMES[j]| >= 1;
      }
    } else {
      IndexOfName(i);
    }
  }

  /** The pitch-class part of a note name exactly as midiNoteNumberToNoteName computes it. */
  function PitchClassText(m: int): string {
    NameAt(IndexOf(NameAt(CppRem12(m))))
  }

  /** The octave: MIDI 60 (middle C) is in octave 4. */
  function Octave(m: int): int {
    CppDiv12(m) - 1
  }

  /** midiNoteNumberToNoteName: pitch class followed by the octave number. */
  function NoteName(m: int): string {
    PitchClassText(m) + IntToString(Octave(m))
  }

  /** For a non-negative MIDI number the name is NAMES[m mod 12] followed by the octave m / 12 - 1. */
  lemma NoteNameOfNonNegative(m: int)
    requires m >= 0
    ensures PitchClassText(m) == NAMES[m % 12]
    ensures Octave(m) == m / 12 - 1
    ensures NoteName(m) == NAMES[m % 12] + IntToString(m / 12 - 1)
  {
    IndexOfDetour(m % 12);
  }

  /** For a negative MIDI number C++ truncation gives a non-positive remainder: only
      multiples of 12 keep a pitch class ("C"); every other one is named by its octave alone. */
  lemma NoteNameOfNegative(m: int)
    requires m < 0
    ensures PitchClassText(m) == if m % 12 == 0 then "C" else ""
    ensures Octave(m) == -((-m) / 12) - 1
  {
    IndexOfDetour(CppRem12(m));
  }

  /** A single-digit octave is rendered as one digit. */
  lemma SmallOctave(m: int)
    requires 12 <= m < 132
    ensures NoteName(m) == NAMES[m % 12] + [DigitChar(m / 12 - 1)]
  {
    NoteNameOfNonNegative(m);
  }

  lemma NoteNameExamples()
    ensures NoteName(60) == "C4"
    ensures NoteName(69) == "A4"
    ensures NoteName(61) == "C#4"
    ensures NoteName(40) == "E2"
    ensures NoteName(88) == "E6"
  {
    assert NoteName(60) == "C4" by { SmallOctave(60); }
    assert NoteName(69) == "A4" by { SmallOctave(69); }
    assert NoteName(61) == "C#4" by { SmallOctave(61); }
    assert NoteName(40) == "E2" by { SmallOctave(40); }
    assert NoteName(88) == "E6" by { SmallOctave(88); }
  }

  /** Twelve semitones up: same pitch class, octave one higher. */
  lemma OctaveUp(m: int)
    requires m >= 0
    ensures PitchClassText(m + 12) == PitchClassText(m)
    ensures Octave(m + 12) == Octave(m) + 1
  {
    NoteNameOfNonNegative(m);
    NoteNameOfNonNegative(m + 12);
  }

  /** The chain of upToFirstOccurrenceOf("0") ... upToFirstOccurrenceOf("9") calls. */
  function StripOctave(name: string): string {
    UpToFirstOfEach(name, DIGITS)
  }

  /** The chain yields the longest digit-free prefix: a prefix without digits that is either
      all of the name or stops right before a digit. */
  lemma StripOctaveIsLongestDigitFreePrefix(name: string)
    ensures StripOctave(name) <= name
    ensures forall k :: 0 <= k < |StripOctave(name)| ==> !IsDigit(StripOctave(name)[k])
    ensures |StripOctave(name)| < |name| ==> IsDigit(name[|StripOctave(name)|])
  {
    var r := StripOctave(name);
    UpToFirstOfEachSpec(name, DIGITS);
    forall k | 0 <= k < |r| ensures !IsDigit(r[k]) {
      DigitsAreTheDecimalDigits(r[k]);
    }
    if |r| < |name| {
      DigitsAreTheDecimalDigits(name[|r|]);
    }
  }

  /** A prefix with those two properties is unique. */
  lemma DigitFreePrefixUnique(name: string, p: string, q: string)
    requires p <= name && q <= name
    requires forall k :: 0 <= k < |p| ==> !IsDigit(p[k])
    requires forall k :: 0 <= k < |q| ==> !IsDigit(q[k])
    requires |p| < |name| ==> IsDigit(name[|p|])
    requires |q| < |name| ==> IsDigit(name[|q|])
    ensures p == q
  {
  }

  /** The same cut as a single scan: the name up to, not including, its first digit. */
  function DigitFreePrefix(s: string): string {
    if s == [] || IsDigit(s[0]) then [] else [s[0]] + DigitFreePrefix(s[1..])
  }

  lemma {:induction false} DigitFreePrefixSpec(s: string)
    ensures DigitFreePrefix(s) <= s
    ensures forall k :: 0 <= k < |DigitFreePrefix(s)| ==> !IsDigit(DigitFreePrefix(s)[k])
    ensures |DigitFreePrefix(s)| < |s| ==> IsDigit(s[|DigitFreePrefix(s)|])
  {
    if s != [] && !IsDigit(s[0]) {
      var tail := DigitFreePrefix(s[1..]);
      DigitFreePrefixSpec(s[1..]);
      assert DigitFreePrefix(s) == [s[0]] + tail;
      forall k | 0 <= k < |DigitFreePrefix(s)|
        ensures !IsDigit(DigitFreePrefix(s)[k])
      {
        if k > 0 {
          assert DigitFreePrefix(s)[k] == tail[k - 1];
        }
      }
    }
  }

  /** The ten-call chain and the single scan cut every name at the same place. */
  lemma StripOctaveIsDigitFreePrefix(name: string)
    ensures StripOctave(name) == DigitFreePrefix(name)
  {
    StripOctaveIsLongestDigitFreePrefix(name);
    DigitFreePrefixSpec(name);
    DigitFreePrefixUnique(name, StripOctave(name), DigitFreePrefix(name));
  }

  /** A digit-free text followed by something starting with a digit is cut back to that text. */
  lemma StripOctaveOfConcat(p: string, rest: string)
    requires forall k :: 0 <= k < |p| ==> !IsDigit(p[k])
    requires rest != [] && IsDigit(rest[0])
    ensures StripOctave(p + rest) == p
  {
    var name := p + rest;
    assert p <= name && name[|p|] == rest[0];
    StripOctaveIsLongestDigitFreePrefix(name);
    DigitFreePrefixUnique(name, StripOctave(name), p);
  }

  /** Stripping the octave from the name of a note at or above MIDI 12 gives back its pitch class. */
  lemma StripOctaveOfNoteName(m: int)
    requires m >= 12
    ensures StripOctave(NoteName(m)) == NAMES[m % 12]
  {
    NoteNameOfNonNegative(m);
    NameShape(m % 12);
    LetterNameChars(NAMES[m % 12]);
    StripOctaveOfConcat(NAMES[m % 12], IntToString(m / 12 - 1));
  }

  /** In the lowest octave (MIDI 0 to 11) the octave is -1, and the minus sign survives the
      stripping: MIDI 0 gives "C-". */
  lemma StripOctaveOfLowestOctave(m: int)
    requires 0 <= m < 12
    ensures StripOctave(NoteName(m)) == NAMES[m] + "-"
  {
    var pc := NAMES[m];
    assert NoteName(m) == pc + IntToString(-1) by {
      assert m / 12 - 1 == -1 && m % 12 == m;
      NoteNameOfNonNegative(m);
    }
    assert IntToString(-1) == "-1" by {
      assert NatToString(1) == [DigitChar(1)];
    }
    assert NoteName(m) == (pc + "-") + "1";
    NameShape(m);
    LetterNameChars(pc);
    StripOctaveOfConcat(pc + "-", "1");
  }

  /** An upper-case letter from A to G, possibly followed by a sharp sign: the shape of every name. */
  predicate LetterName(s: string) {
    |s| >= 1 && 'A' <= s[0] <= 'G' && (|s| == 1 || (|s| == 2 && s[1] == '#'))
  }

  lemma NameShape(i: int)
    requires 0 <= i < |NAMES|
    ensures LetterName(NAMES[i])
  {
  }

  /** A letter name holds no digit, and its two ends are not whitespace. */
  lemma LetterNameChars(s: string)
    requires LetterName(s)
    ensures forall k :: 0 <= k < |s| ==> !IsDigit(s[k])
    ensures !IsWhitespace(s[0]) && !IsWhitespace(s[|s| - 1])
  {
  }

  /** Trimming keeps a letter name and lower-casing only touches its letter. */
  lemma NormalizedLetterName(s: string)
    requires LetterName(s)
    ensures |Normalize(s)| == |s|
    ensures Normalize(s)[0] == LowerChar(s[0])
    ensures forall k :: 1 <= k < |s| ==> Normalize(s)[k] == s[k]
  {
    LetterNameChars(s);
    TrimKeeps(s);
  }

  lemma LowerCharInjective(a: char, b: char)
    requires 'A' <= a <= 'Z' && 'A' <= b <= 'Z' && a != b
    ensures LowerChar(a) != LowerChar(b)
  {
    assert LowerChar(a) as int == a as int + 32;
    assert LowerChar(b) as int == b as int + 32;
  }

  /** Trimming and lower-casing keeps distinct letter names apart. */
  lemma NormalizedLetterNamesDistinct(s: string, t: string)
    requires LetterName(s) && LetterName(t) && s != t
    ensures Normalize(s) != Normalize(t)
  {
    var ns, nt := Normalize(s), Normalize(t);
    assert |ns| == |s| && ns[0] == LowerChar(s[0]) by { NormalizedLetterName(s); }
    assert |nt| == |t| && nt[0] == LowerChar(t[0]) by { NormalizedLetterName(t); }
    if s[0] != t[0] {
      LowerCharInjective(s[0], t[0]);
      assert ns[0] != nt[0];
    } else {
      assert |s| != |t|;
    }
  }

  /** So the by-string normal forms of the 12 names are 12 distinct strings. */
  lemma NormalizedNamesDistinct(i: int, j: int)
    requires 0 <= i < |NAMES| && 0 <= j < |NAMES| && i != j
    ensures Normalize(NAMES[i]) != Normalize(NAMES[j])
  {
    NameShape(i);
    NameShape(j);
    NamesDistinct(i, j);
    NormalizedLetterNamesDistinct(NAMES[i], NAMES[j]);
  }
}
