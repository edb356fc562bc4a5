/** The numerals shown when the game runs in Arabic: `toArabicDigits` in App.tsx
    renders a number in decimal and replaces every ASCII digit by the
    Arabic-Indic digit of the same value, leaving every other character alone. */
module Digits {

  /** The ten Arabic-Indic digits U+0660 .. U+0669, indexed by their value. */
  const ARABIC_INDIC: string := "\U{0660}\U{0661}\U{0662}\U{0663}\U{0664}\U{0665}\U{0666}\U{0667}\U{0668}\U{0669}"

  predicate IsAsciiDigit(c: char) { '0' <= c <= '9' }

  predicate IsArabicIndicDigit(c: char) { '\U{0660}' <= c <= '\U{0669}' }

  /** The value of an ASCII digit. */
  function AsciiValue(c: char): (v: nat)
    requires IsAsciiDigit(c)
    ensures v < 10
  {
    c as int - '0' as int
  }

  /** The value of an Arabic-Indic digit. */
  function ArabicIndicValue(c: char): (v: nat)
    requires IsArabicIndicDigit(c)
    ensures v < 10
  {
    c as int - '\U{0660}' as int
  }

  /** The replacement applied by the regular expression `/\d/g` to one character. */
  function Localize(c: char): char
  {
    if IsAsciiDigit(c) then ARABIC_INDIC[AsciiValue(c)] else c
  }

  /** `s.replace(/\d/g, d => ARABIC_INDIC[parseInt(d)])`, character by character. */
  function ReplaceDigits(s: string): (r: string)
    ensures |r| == |s|
    ensures forall i :: 0 <= i < |s| && IsAsciiDigit(s[i]) ==>
      IsArabicIndicDigit(r[i]) && ArabicIndicValue(r[i]) == AsciiValue(s[i])
    ensures forall i :: 0 <= i < |s| && !IsAsciiDigit(s[i]) ==> r[i] == s[i]
  {
    if s == [] then [] else ReplaceDigits(s[..|s| - 1]) + [Localize(s[|s| - 1])]
  }

  /** The inverse replacement: every Arabic-Indic digit back to its ASCII digit. */
  function RestoreDigits(s: string): string
  {
    if s == [] then []
    else
      var c := s[|s| - 1];
      RestoreDigits(s[..|s| - 1]) + [if IsArabicIndicDigit(c) then ('0' as int + ArabicIndicValue(c)) as char else c]
  }

  /** Replacing digits loses nothing: on a text that holds no Arabic-Indic digit
      to begin with, restoring the ASCII digits gives the text back. */
  lemma {:induction false} RestoreReplaced(s: string)
    requires forall i :: 0 <= i < |s| ==> !IsArabicIndicDigit(s[i])
    ensures RestoreDigits(ReplaceDigits(s)) == s
  {
    if s != [] {
      var p := s[..|s| - 1];
      RestoreReplaced(p);
      assert ReplaceDigits(s)[..|s| - 1] == ReplaceDigits(p);
    }
  }

  /** `n.toString()` for a non-negative integer: its decimal digits, most significant first. */
  function NatString(n: nat): (s: string)
    ensures |s| >= 1
    ensures forall i :: 0 <= i < |s| ==> IsAsciiDigit(s[i])
  {
    if n < 10 then [('0' as int + n) as char]
    else NatString(n / 10) + [('0' as int + n % 10) as char]
  }

  /** `n.toString()` for an integer number: a minus sign before the digits of a negative one. */
  function NumberString(n: int): string
  {
    if n < 0 then "-" + NatString(-n) else NatString(n)
  }

  /** The number a string of ASCII digits denotes in decimal. */
  function DecimalValue(s: string): nat
    requires forall i :: 0 <= i < |s| ==> IsAsciiDigit(s[i])
  {
    if s == [] then 0 else DecimalValue(s[..|s| - 1]) * 10 + AsciiValue(s[|s| - 1])
  }

  /** The number a string of Arabic-Indic digits denotes in decimal. */
  function ArabicIndicNumberValue(s: string): nat
    requires forall i :: 0 <= i < |s| ==> IsArabicIndicDigit(s[i])
  {
    if s == [] then 0 else ArabicIndicNumberValue(s[..|s| - 1]) * 10 + ArabicIndicValue(s[|s| - 1])
  }

  /** The decimal rendering of a natural number reads back as that number. */
  lemma {:induction false} NatStringDenotes(n: nat)
    ensures DecimalValue(NatString(n)) == n
  {
    if n >= 10 {
      NatStringDenotes(n / 10);
      assert NatString(n)[..|NatString(n)| - 1] == NatString(n / 10);
    }
  }

  /** Replacing the digits of a decimal numeral keeps the number it denotes. */
  lemma {:induction false} ReplacedDenotesSame(s: string)
    requires forall i :: 0 <= i < |s| ==> IsAsciiDigit(s[i])
    ensures forall i :: 0 <= i < |s| ==> IsArabicIndicDigit(ReplaceDigits(s)[i])
    ensures ArabicIndicNumberValue(ReplaceDigits(s)) == DecimalValue(s)
  {
    if s != [] {
      ReplacedDenotesSame(s[..|s| - 1]);
      assert ReplaceDigits(s)[..|s| - 1] == ReplaceDigits(s[..|s| - 1]);
    }
  }

  /** The replacement works character by character, so it distributes over concatenation. */
  lemma {:induction false} ReplaceDigitsAppend(a: string, b: string)
    ensures ReplaceDigits(a + b) == ReplaceDigits(a) + ReplaceDigits(b)
  {
    if b != [] {
      var b' := b[..|b| - 1];
      ReplaceDigitsAppend(a, b');
      assert (a + b)[..|a + b| - 1] == a + b';
    }
  }

  /** The Arabic-Indic numeral of a natural number denotes that number. */
  lemma NaturalNumeral(n: nat)
    ensures forall i :: 0 <= i < |ReplaceDigits(NatString(n))| ==> IsArabicIndicDigit(ReplaceDigits(NatString(n))[i])
    ensures ArabicIndicNumberValue(ReplaceDigits(NatString(n))) == n
  {
    NatStringDenotes(n);
    ReplacedDenotesSame(NatString(n));
  }

  /** The minus sign of a negative number is left alone. */
  lemma NegativeNumeral(n: int)
    requires n < 0
    ensures var r := ReplaceDigits(NumberString(n));
      r[0] == '-' && var digits := r[1..];
      (forall i :: 0 <= i < |digits| ==> IsArabicIndicDigit(digits[i])) && ArabicIndicNumberValue(digits) == -n
  {
    var t := ReplaceDigits(NatString(-n));
    var r := ReplaceDigits(NumberString(n));
    assert r == "-" + t by {
      ReplaceDigitsAppend("-", NatString(-n));
      assert "-"[..0] == [];
    }
    assert r[1..] == t;
    NaturalNumeral(-n);
  }

  /** `toArabicDigits(n)` (App.tsx:38-40): the label of a level, a score or an
      answer button in Arabic. A non-negative number becomes Arabic-Indic digits
      only, which read back as the number itself; a negative one keeps its sign. */
  function ToArabicDigits(n: int): (r: string)
    ensures |r| == |NumberString(n)|
    ensures n >= 0 ==> (forall i :: 0 <= i < |r| ==> IsArabicIndicDigit(r[i])) && ArabicIndicNumberValue(r) == n
    ensures n < 0 ==> r[0] == '-' && var digits := r[1..];
      (forall i :: 0 <= i < |digits| ==> IsArabicIndicDigit(digits[i])) && ArabicIndicNumberValue(digits) == -n
  {
    if n < 0 then
      NegativeNumeral(n);
      ReplaceDigits(NumberString(n))
    else
      NaturalNumeral(n);
      ReplaceDigits(NumberString(n))
  }
}
