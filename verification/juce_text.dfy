/** The few operations of JUCE's String class that the note-judgment code relies on:
    decimal rendering of an int, upToFirstOccurrenceOf, trim and toLowerCase.
    Strings are sequences of characters; no Unicode case mapping is modelled. */
module JuceText {

  predicate IsDigit(c: char) {
    '0' <= c <= '9'
  }

  /** The ten decimal digits in order, as used by the octave-stripping chain. */
  const DIGITS: string := "0123456789"

  lemma DigitsAreTheDecimalDigits(c: char)
    ensures c in DIGITS <==> IsDigit(c)
  {
    if IsDigit(c) {
      assert DIGITS[c as int - '0' as int] == c;
    }
  }

  function DigitChar(d: nat): (c: char)
    requires d < 10
    ensures IsDigit(c)
  {
    ('0' as int + d) as char
  }

  function DigitValue(c: char): (d: nat)
    requires IsDigit(c)
    ensures d < 10 && DigitChar(d) == c
  {
    c as int - '0' as int
  }

  predicate AllDigits(s: string) {
    forall k :: 0 <= k < |s| ==> IsDigit(s[k])
  }

  /** Decimal rendering of a natural number: most significant digit first,
      no leading zero except for 0 itself. */
  function NatToString(n: nat): (s: string)
    ensures |s| >= 1 && AllDigits(s)
    ensures (s[0] == '0') <==> n == 0
    decreases n
  {
    if n < 10 then [DigitChar(n)] else NatToString(n / 10) + [DigitChar(n % 10)]
  }

  /** Reads a string of decimal digits back as a number (the reference for NatToString). */
  function ParseDigits(s: string): nat
    requires AllDigits(s)
  {
    if s == [] then 0 else ParseDigits(s[..|s| - 1]) * 10 + DigitValue(s[|s| - 1])
  }

  lemma {:induction false} ParseNatToString(n: nat)
    ensures ParseDigits(NatToString(n)) == n
    decreases n
  {
    var s := NatToString(n);
    if n >= 10 {
      var prefix := NatToString(n / 10);
      assert s == prefix + [DigitChar(n % 10)];
      assert s[..|s| - 1] == prefix;
      ParseNatToString(n / 10);
    }
  }

  /** juce::String(int): an optional minus sign followed by the decimal digits of the magnitude. */
  function IntToString(i: int): (s: string)
    ensures |s| >= 1
    ensures (s[0] == '-') <==> i < 0
  {
    if i < 0 then "-" + NatToString(-i) else NatToString(i)
  }

  /** Reading the rendering back gives the number: the digits after an optional minus sign
      parse to the magnitude. */
  lemma ParseIntToString(i: int)
    ensures i >= 0 ==> AllDigits(IntToString(i)) && ParseDigits(IntToString(i)) == i
    ensures i < 0 ==> |IntToString(i)| >= 2 && AllDigits(IntToString(i)[1..]) && ParseDigits(IntToString(i)[1..]) == -i
  {
    ParseNatToString(if i < 0 then -i else i);
    if i < 0 {
      assert IntToString(i)[1..] == NatToString(-i);
    }
  }

  /** String::upToFirstOccurrenceOf(c, false, false): the part of s before the first c,
      or all of s when c does not occur. */
  function UpToFirst(s: string, c: char): string {
    if s == [] then []
    else if s[0] == c then []
    else [s[0]] + UpToFirst(s[1..], c)
  }

  /** The result is the longest prefix of s free of c: it holds no c, and it is either all
      of s or stops right before a c. */
  lemma {:induction false} UpToFirstSpec(s: string, c: char)
    ensures UpToFirst(s, c) <= s
    ensures c !in UpToFirst(s, c)
    ensures |UpToFirst(s, c)| < |s| ==> s[|UpToFirst(s, c)|] == c
  {
    if s != [] && s[0] != c {
      UpToFirstSpec(s[1..], c);
    }
  }

  /** upToFirstOccurrenceOf applied once for each character of cs, in order. */
  function UpToFirstOfEach(s: string, cs: string): string
    decreases |cs|
  {
    if cs == [] then s else UpToFirstOfEach(UpToFirst(s, cs[0]), cs[1..])
  }

  /** The chain leaves the longest prefix of s that holds none of the characters of cs. */
  lemma {:induction false} UpToFirstOfEachSpec(s: string, cs: string)
    ensures UpToFirstOfEach(s, cs) <= s
    ensures forall c :: c in cs ==> c !in UpToFirstOfEach(s, cs)
    ensures |UpToFirstOfEach(s, cs)| < |s| ==> s[|UpToFirstOfEach(s, cs)|] in cs
    decreases |cs|
  {
    if cs != [] {
      var cut := UpToFirst(s, cs[0]);
      var r := UpToFirstOfEach(cut, cs[1..]);
      UpToFirstSpec(s, cs[0]);
      UpToFirstOfEachSpec(cut, cs[1..]);
      assert forall c :: c in cs ==> c == cs[0] || c in cs[1..];
      assert |r| < |cut| ==> s[|r|] == cut[|r|];
    }
  }

  /** CharacterFunctions::isWhitespace for the characters a note name can hold. */
  predicate IsWhitespace(c: char) {
    c == ' ' || '\t' <= c <= '\r'
  }

  function TrimStart(s: string): string {
    if s != [] && IsWhitespace(s[0]) then TrimStart(s[1..]) else s
  }

  function TrimEnd(s: string): string {
    if s != [] && IsWhitespace(s[|s| - 1]) then TrimEnd(s[..|s| - 1]) else s
  }

  /** String::trim: drops the whitespace at both ends. */
  function Trim(s: string): string {
    TrimEnd(TrimStart(s))
  }

  /** TrimStart drops exactly the leading whitespace: what it removes is whitespace and what
      it keeps is a suffix that does not start with whitespace. */
  lemma {:induction false} TrimStartSpec(s: string)
    ensures |TrimStart(s)| <= |s| && TrimStart(s) == s[|s| - |TrimStart(s)|..]
    ensures forall k :: 0 <= k < |s| - |TrimStart(s)| ==> IsWhitespace(s[k])
    ensures TrimStart(s) != [] ==> !IsWhitespace(TrimStart(s)[0])
  {
    if s != [] && IsWhitespace(s[0]) {
      TrimStartSpec(s[1..]);
      assert s[1..][|s| - 1 - |TrimStart(s)|..] == s[|s| - |TrimStart(s)|..];
    }
  }

  /** TrimEnd drops exactly the trailing whitespace. */
  lemma {:induction false} TrimEndSpec(s: string)
    ensures |TrimEnd(s)| <= |s| && TrimEnd(s) == s[..|TrimEnd(s)|]
    ensures forall k :: |TrimEnd(s)| <= k < |s| ==> IsWhitespace(s[k])
    ensures TrimEnd(s) != [] ==> !IsWhitespace(TrimEnd(s)[|TrimEnd(s)| - 1])
  {
    if s != [] && IsWhitespace(s[|s| - 1]) {
      TrimEndSpec(s[..|s| - 1]);
      assert s[..|s| - 1][..|TrimEnd(s)|] == s[..|TrimEnd(s)|];
    }
  }

  /** The result of trim neither starts nor ends with whitespace. */
  lemma TrimSpec(s: string)
    ensures Trim(s) != [] ==> !IsWhitespace(Trim(s)[0]) && !IsWhitespace(Trim(s)[|Trim(s)| - 1])
  {
    var t := TrimStart(s);
    TrimStartSpec(s);
    TrimEndSpec(t);
    if Trim(s) != [] {
      assert Trim(s)[0] == t[0];
    }
  }

  /** A string that neither starts nor ends with whitespace is left as it is. */
  lemma TrimKeeps(s: string)
    requires s != [] ==> !IsWhitespace(s[0]) && !IsWhitespace(s[|s| - 1])
    ensures Trim(s) == s
  {
  }

  function LowerChar(c: char): char {
    if 'A' <= c <= 'Z' then (c as int - 'A' as int + 'a' as int) as char else c
  }

  /** String::toLowerCase, restricted to ASCII letters. */
  function ToLower(s: string): (r: string)
    ensures |r| == |s|
  {
    seq(|s|, k requires 0 <= k < |s| => LowerChar(s[k]))
  }

  /** The normal form both sides of a by-string comparison are brought to: trim, then lower-case. */
  function Normalize(s: string): string {
    ToLower(Trim(s))
  }
}
