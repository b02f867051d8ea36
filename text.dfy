/**
 * The few Java string operations the core relies on: decimal rendering of
 * integers (`String.format("%d")`, `Integer.toString`), `String.trim`, and
 * case-insensitive comparison (`compareToIgnoreCase`).
 */
module Text {

  predicate IsDigit(c: char)
  {
    '0' <= c <= '9'
  }

  function DigitChar(d: nat): (c: char)
    requires d < 10
    ensures IsDigit(c)
  {
    ['0', '1', '2', '3', '4', '5', '6', '7', '8', '9'][d]
  }

  function DigitValue(c: char): (d: nat)
    requires IsDigit(c)
    ensures d < 10
  {
    (c as int) - ('0' as int)
  }

  /** Decimal rendering of a natural number, without leading zeros. */
  function NatToString(n: nat): (s: string)
    ensures |s| > 0
    ensures forall i :: 0 <= i < |s| ==> IsDigit(s[i])
    ensures n > 0 ==> s[0] != '0'
    decreases n
  {
    if n < 10 then [DigitChar(n)] else NatToString(n / 10) + [DigitChar(n % 10)]
  }

  /** Decimal rendering of an integer, with a leading '-' when negative. */
  function IntToString(n: int): (s: string)
    ensures |s| > 0
    ensures (s[0] == '-') <==> n < 0
  {
    if n < 0 then "-" + NatToString(-n) else NatToString(n)
  }

  /** The value of a string of decimal digits (read from the right). */
  function DigitsValue(s: string): nat
    requires forall i :: 0 <= i < |s| ==> IsDigit(s[i])
  {
    if s == [] then 0 else 10 * DigitsValue(s[..|s| - 1]) + DigitValue(s[|s| - 1])
  }

  /** Reading a rendered number back gives the number: decimal rendering is injective. */
  lemma {:induction false} NatToStringRoundTrip(n: nat)
    ensures DigitsValue(NatToString(n)) == n
    decreases n
  {
    if n >= 10 {
      var s := NatToString(n);
      assert s[..|s| - 1] == NatToString(n / 10);
      NatToStringRoundTrip(n / 10);
    }
  }

  lemma NatToStringInjective(a: nat, b: nat)
    ensures NatToString(a) == NatToString(b) ==> a == b
  {
    NatToStringRoundTrip(a);
    NatToStringRoundTrip(b);
  }

  /** Length of the run of digits at the start of `s`. */
  function LeadingDigits(s: string): (k: nat)
    ensures k <= |s|
    ensures forall i :: 0 <= i < k ==> IsDigit(s[i])
    ensures k < |s| ==> !IsDigit(s[k])
  {
    if s == [] || !IsDigit(s[0]) then 0 else 1 + LeadingDigits(s[1..])
  }

  /**
   * A number rendered in front of a non-digit can be read back from the
   * front of the string.
   */
  lemma {:induction false} ReadLeadingNat(n: nat, rest: string)
    requires rest != [] && !IsDigit(rest[0])
    ensures LeadingDigits(NatToString(n) + rest) == |NatToString(n)|
    ensures DigitsValue((NatToString(n) + rest)[..|NatToString(n)|]) == n
  {
    var s := NatToString(n);
    LeadingDigitsOfDigitsThen(s, rest);
    assert (s + rest)[..|s|] == s;
    NatToStringRoundTrip(n);
  }

  lemma {:induction false} LeadingDigitsOfDigitsThen(s: string, rest: string)
    requires forall i :: 0 <= i < |s| ==> IsDigit(s[i])
    requires rest != [] && !IsDigit(rest[0])
    ensures LeadingDigits(s + rest) == |s|
    decreases |s|
  {
    if s == [] {
      assert s + rest == rest;
    } else {
      assert (s + rest)[1..] == s[1..] + rest;
      LeadingDigitsOfDigitsThen(s[1..], rest);
    }
  }

  // --- String.trim -------------------------------------------------------

  /** `String.trim` removes every character up to and including U+0020. */
  predicate IsTrimmed(c: char)
  {
    c <= ' '
  }

  function TrimStart(s: string): (r: string)
    ensures |r| <= |s| && r == s[|s| - |r|..]
    ensures r != [] ==> !IsTrimmed(r[0])
    ensures forall i :: 0 <= i < |s| - |r| ==> IsTrimmed(s[i])
  {
    if s != [] && IsTrimmed(s[0]) then TrimStart(s[1..]) else s
  }

  function TrimEnd(s: string): (r: string)
    ensures |r| <= |s| && r == s[..|r|]
    ensures r != [] ==> !IsTrimmed(r[|r| - 1])
    ensures forall i :: |r| <= i < |s| ==> IsTrimmed(s[i])
  {
    if s != [] && IsTrimmed(s[|s| - 1]) then TrimEnd(s[..|s| - 1]) else s
  }

  function Trim(s: string): string
  {
    TrimEnd(TrimStart(s))
  }

  /** Only blanks and control characters: what `trim` removes entirely. */
  predicate IsBlank(s: string)
  {
    forall i :: 0 <= i < |s| ==> IsTrimmed(s[i])
  }

  /** `text.trim().isEmpty()` holds exactly for strings of blanks and control characters. */
  lemma TrimEmptyIffBlank(s: string)
    ensures Trim(s) == [] <==> IsBlank(s)
  {
    var t := TrimStart(s);
    if Trim(s) == [] {
      assert |t| == 0;
    } else {
      assert !IsTrimmed(Trim(s)[0]);
      assert Trim(s)[0] == s[|s| - |t|];
    }
  }

  /** A trimmed string neither starts nor ends with a trimmed character, so trimming again changes nothing. */
  lemma TrimIdempotent(s: string)
    ensures Trim(Trim(s)) == Trim(s)
  {
    var t := Trim(s);
    if t != [] {
      assert !IsTrimmed(t[0]);
      assert TrimStart(t) == t;
      assert !IsTrimmed(t[|t| - 1]);
    }
  }

  // --- compareToIgnoreCase -----------------------------------------------

  /** Case folding of one character (ASCII letters only). */
  function FoldCase(c: char): (f: char)
    ensures !('A' <= f <= 'Z')
  {
    if 'A' <= c <= 'Z' then (c as int + 32) as char else c
  }

  /** `a.compareToIgnoreCase(b) == 0`. */
  predicate EqualsIgnoreCase(a: string, b: string)
  {
    |a| == |b| && forall i :: 0 <= i < |a| ==> FoldCase(a[i]) == FoldCase(b[i])
  }

  /** ASCII lower case of a whole string. */
  function LowerCase(s: string): (r: string)
    ensures |r| == |s|
  {
    if s == [] then [] else [FoldCase(s[0])] + LowerCase(s[1..])
  }

  /** Each character of the lower case is the folded character at the same place. */
  lemma {:induction false} LowerCaseAt(s: string)
    ensures forall i :: 0 <= i < |s| ==> LowerCase(s)[i] == FoldCase(s[i])
  {
    if s != [] {
      LowerCaseAt(s[1..]);
    }
  }

  /** A string is the lower case of another when it folds to it letter by letter. */
  lemma LowerCaseIs(s: string, r: string)
    requires |s| == |r| && forall i :: 0 <= i < |s| ==> FoldCase(s[i]) == r[i]
    ensures LowerCase(s) == r
  {
    LowerCaseAt(s);
  }

  lemma EqualsIgnoreCaseIsEquivalence(a: string, b: string, c: string)
    ensures EqualsIgnoreCase(a, a)
    ensures EqualsIgnoreCase(a, b) ==> EqualsIgnoreCase(b, a)
    ensures EqualsIgnoreCase(a, b) && EqualsIgnoreCase(b, c) ==> EqualsIgnoreCase(a, c)
  {
  }

  /** Whether `p` is a prefix of `s`. */
  predicate StartsWith(s: string, p: string)
  {
    |p| <= |s| && s[..|p|] == p
  }

  predicate EndsWith(s: string, p: string)
  {
    |p| <= |s| && s[|s| - |p|..] == p
  }

  // --- concatenation -----------------------------------------------------

  /** Regrouping a concatenation, for appends made one after the other. */
  lemma AppendAssociative<T>(a: seq<T>, b: seq<T>, c: seq<T>)
    ensures a + b + c == a + (b + c)
  {
  }

  /** A prefix one longer is the prefix and the next element. */
  lemma TakeOneMore<T>(s: seq<T>, i: nat)
    requires i < |s|
    ensures s[..i + 1] == s[..i] + [s[i]]
  {
  }

}
