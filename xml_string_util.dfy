/**
 * XML element strings as the REST layer writes them: `<tag>` + escaped text
 * + `</tag>`, the tag itself never escaped.
 *
 * Escaping follows `escapeXml` of the commons-lang 2 library the code calls:
 * the five basic entities, and every UTF-16 code unit above U+007F as a
 * decimal character reference, so a character beyond U+FFFF becomes the
 * references of its two surrogates.
 */
module XmlStringUtil {
  import opened Text
  import opened Wrappers

  const XML_INSTRUCTION_STR: string := "<?xml version=\"1.0\" encoding=\"UTF-8\" standalone=\"yes\"?>"

  const SURROGATE_BASE: int := 0x1_0000
  const HIGH_SURROGATE_MIN: int := 0xD800
  const LOW_SURROGATE_MIN: int := 0xDC00
  const SURROGATE_SPAN: int := 0x400

  predicate IsHighSurrogate(u: int)
  {
    HIGH_SURROGATE_MIN <= u < HIGH_SURROGATE_MIN + SURROGATE_SPAN
  }

  predicate IsLowSurrogate(u: int)
  {
    LOW_SURROGATE_MIN <= u < LOW_SURROGATE_MIN + SURROGATE_SPAN
  }

  /** The code point a surrogate pair stands for. */
  function Combine(high: int, low: int): (v: int)
    requires IsHighSurrogate(high) && IsLowSurrogate(low)
    ensures SURROGATE_BASE <= v < 0x11_0000
  {
    SURROGATE_BASE + (high - HIGH_SURROGATE_MIN) * SURROGATE_SPAN + (low - LOW_SURROGATE_MIN)
  }

  /**
   * The UTF-16 code units of a character, as a Java string holds it: the
   * code itself below U+10000, otherwise a high and a low surrogate that
   * combine back into the code.
   */
  function Utf16Units(c: char): (u: seq<int>)
    ensures c as int < SURROGATE_BASE ==> u == [c as int]
    ensures c as int >= SURROGATE_BASE ==>
      |u| == 2 && IsHighSurrogate(u[0]) && IsLowSurrogate(u[1]) && Combine(u[0], u[1]) == c as int
  {
    if c as int < SURROGATE_BASE then [c as int]
    else
      var v := c as int - SURROGATE_BASE;
      [HIGH_SURROGATE_MIN + v / SURROGATE_SPAN, LOW_SURROGATE_MIN + v % SURROGATE_SPAN]
  }

  /** `&#n;`: the decimal reference `escapeXml` writes for one code unit. */
  function CharReference(unit: nat): string
  {
    "&#" + NatToString(unit) + ";"
  }

  lemma CharReferenceLength(unit: nat)
    ensures |CharReference(unit)| == |NatToString(unit)| + 3
  {
  }

  /**
   * What `escapeXml` writes for a character: one of the five entities, the
   * character itself up to U+007F, otherwise one reference per UTF-16 code
   * unit.
   */
  function EscapeChar(c: char): (e: string)
    ensures |e| > 0
    ensures c != '&' && c <= '\U{7F}' && c != '<' && c != '>' && c != '"' && c != '\'' ==> e == [c]
  {
    if c == '&' then "&amp;"
    else if c == '<' then "&lt;"
    else if c == '>' then "&gt;"
    else if c == '"' then "&quot;"
    else if c == '\'' then "&apos;"
    else if c > '\U{7F}' then
      var units := Utf16Units(c);
      if |units| == 1 then CharReference(units[0]) else CharReference(units[0]) + CharReference(units[1])
    else [c]
  }

  function Escape(s: string): string
  {
    if s == [] then [] else EscapeChar(s[0]) + Escape(s[1..])
  }

  /** A character code that a Dafny `char` can hold. */
  predicate IsScalar(v: int)
  {
    0 <= v < 0xD800 || 0xE000 <= v < 0x11_0000
  }

  /**
   * The character an entity or character reference at the start of `s`
   * stands for, and how many characters it spans.
   */
  function ReadEntity(s: string): (r: Option<(char, nat)>)
    ensures r.Some? ==> 0 < r.value.1 <= |s| && s[0] == '&'
  {
    if IsReferenceAt(s, 0) then ReadCharReference(s[2..])
    else if StartsWith(s, "&amp;") then Some(('&', 5))
    else if StartsWith(s, "&lt;") then Some(('<', 4))
    else if StartsWith(s, "&gt;") then Some(('>', 4))
    else if StartsWith(s, "&quot;") then Some(('"', 6))
    else if StartsWith(s, "&apos;") then Some(('\'', 6))
    else None
  }

  /** Whether "&#", the start of a character reference, stands at position `k`. */
  predicate IsReferenceAt(s: string, k: nat)
  {
    k + 2 <= |s| && s[k] == '&' && s[k + 1] == '#'
  }

  /** The decimal digits and ';' that follow "&#": the code they spell and the length of digits and ';'. */
  function ReadReferenceDigits(t: string): (r: Option<(nat, nat)>)
    ensures r.Some? ==> 0 < r.value.1 <= |t|
  {
    var k := LeadingDigits(t);
    if 0 < k < |t| && t[k] == ';' then Some((DigitsValue(t[..k]), k + 1)) else None
  }

  /**
   * The character a reference after "&#" stands for, and the span counted
   * from the "&": a code a `char` can hold, or a high surrogate whose low
   * surrogate follows as a second reference, the pair being read as one
   * character as a Java string holds it.
   */
  function ReadCharReference(t: string): (r: Option<(char, nat)>)
    ensures r.Some? ==> 0 < r.value.1 <= |t| + 2
  {
    match ReadReferenceDigits(t)
    case None => None
    case Some((n, k)) =>
      if IsScalar(n) then Some((n as char, k + 2))
      else if IsHighSurrogate(n) && IsReferenceAt(t, k) then
        match ReadReferenceDigits(t[k + 2..])
        case None => None
        case Some((low, m)) =>
          if IsLowSurrogate(low) then Some((Combine(n, low) as char, k + 2 + 2 + m)) else None
      else None
  }

  /** Reads entities and character references back; the inverse of `Escape`. */
  function Unescape(s: string): string
    decreases |s|
  {
    if s == [] then []
    else if ReadEntity(s).Some? then [ReadEntity(s).value.0] + Unescape(s[ReadEntity(s).value.1..])
    else [s[0]] + Unescape(s[1..])
  }

  lemma ReadNamedEntity(c: char, rest: string)
    requires c in {'&', '<', '>', '"', '\''}
    ensures ReadEntity(EscapeChar(c) + rest) == Some((c, |EscapeChar(c)|))
  {
    var s := EscapeChar(c) + rest;
    if c == '&' {
      assert s[..5] == "&amp;";
    } else if c == '<' {
      assert s[..4] == "&lt;" && s[1] == 'l';
    } else if c == '>' {
      assert s[..4] == "&gt;" && s[1] == 'g';
    } else if c == '"' {
      assert s[..6] == "&quot;" && s[1] == 'q';
    } else {
      assert s[..6] == "&apos;" && s[1] == 'a' && s[2] == 'p';
    }
  }

  /** The digits of a rendered number and a ';' read back as that number, the rest following them. */
  lemma ReadRenderedDigits(n: nat, rest: string)
    ensures var t := NatToString(n) + ";" + rest;
      && ReadReferenceDigits(t) == Some((n, |NatToString(n)| + 1))
      && t[|NatToString(n)| + 1..] == rest
  {
    var d := NatToString(n);
    var t := d + ";" + rest;
    assert t == d + (";" + rest);
    ReadLeadingNat(n, ";" + rest);
    assert LeadingDigits(t) == |d|;
    assert t[|d|] == ';';
    assert DigitsValue(t[..|d|]) == n;
  }

  /** A reference followed by more text is "&#", the digits, ';' and that text. */
  lemma CharReferenceThen(n: nat, rest: string)
    ensures CharReference(n) + rest == "&#" + (NatToString(n) + ";" + rest)
  {
  }

  lemma ReadDecimalReference(c: char, rest: string)
    ensures ReadCharReference(NatToString(c as int) + ";" + rest) == Some((c, |NatToString(c as int)| + 3))
  {
    ReadRenderedDigits(c as int, rest);
  }

  /** Text starting with "&#" is read as a character reference and nothing else. */
  lemma ReadEntityOfReference(t: string)
    ensures ReadEntity("&#" + t) == ReadCharReference(t)
  {
    assert ("&#" + t)[2..] == t;
  }

  lemma DropFromSuffix(t: string, k: nat, j: nat)
    requires k + j <= |t|
    ensures t[k + j..] == t[k..][j..]
  {
  }

  /** A reference to a high surrogate followed by one to a low surrogate is read as the pair's character. */
  lemma ReadReferencePair(t: string, high: nat, k: nat, low: nat, m: nat)
    requires ReadReferenceDigits(t) == Some((high, k)) && IsHighSurrogate(high) && IsReferenceAt(t, k)
    requires ReadReferenceDigits(t[k + 2..]) == Some((low, m)) && IsLowSurrogate(low)
    ensures ReadCharReference(t) == Some((Combine(high, low) as char, k + 2 + 2 + m))
  {
  }

  /** Digits and ';' followed by a second reference: the code read and the second reference's digits. */
  lemma ReadDigitsBeforeReference(high: nat, low: nat, rest: string)
    ensures var t := NatToString(high) + ";" + (CharReference(low) + rest);
      var k := |NatToString(high)| + 1;
      && ReadReferenceDigits(t) == Some((high, k))
      && IsReferenceAt(t, k)
      && t[k + 2..] == NatToString(low) + ";" + rest
  {
    var tail := CharReference(low) + rest;
    var t := NatToString(high) + ";" + tail;
    var k := |NatToString(high)| + 1;
    ReadRenderedDigits(high, tail);
    CharReferenceThen(low, rest);
    assert tail[2..] == NatToString(low) + ";" + rest;
    DropFromSuffix(t, k, 2);
  }

  /** After "&#", the digits of a high surrogate and the reference of a low one read as the pair's character. */
  lemma ReadPairAfterPrefix(high: nat, low: nat, rest: string)
    requires IsHighSurrogate(high) && IsLowSurrogate(low)
    ensures ReadCharReference(NatToString(high) + ";" + (CharReference(low) + rest))
      == Some((Combine(high, low) as char, |NatToString(high)| + 1 + 2 + 2 + |NatToString(low)| + 1))
  {
    var t := NatToString(high) + ";" + (CharReference(low) + rest);
    var k, m := |NatToString(high)| + 1, |NatToString(low)| + 1;
    ReadDigitsBeforeReference(high, low, rest);
    ReadRenderedDigits(low, rest);
    ReadReferencePair(t, high, k, low, m);
  }

  /** The references of a high and a low surrogate read back as the character of the pair. */
  lemma ReadSurrogateReferences(high: nat, low: nat, rest: string)
    requires IsHighSurrogate(high) && IsLowSurrogate(low)
    ensures ReadEntity(CharReference(high) + (CharReference(low) + rest))
      == Some((Combine(high, low) as char, |NatToString(high)| + 1 + 2 + 2 + |NatToString(low)| + 1))
  {
    var t := NatToString(high) + ";" + (CharReference(low) + rest);
    CharReferenceThen(high, CharReference(low) + rest);
    ReadEntityOfReference(t);
    ReadPairAfterPrefix(high, low, rest);
  }

  /** A character beyond U+FFFF is escaped as its two surrogates' references. */
  lemma EscapeSupplementary(c: char, high: nat, low: nat)
    requires c as int >= SURROGATE_BASE && Utf16Units(c) == [high, low]
    ensures EscapeChar(c) == CharReference(high) + CharReference(low)
    ensures |EscapeChar(c)| == |NatToString(high)| + 1 + 2 + 2 + |NatToString(low)| + 1
  {
    CharReferenceLength(high);
    CharReferenceLength(low);
  }

  /** A character beyond U+FFFF is escaped as its two surrogates and read back as itself. */
  lemma ReadSurrogatePair(c: char, rest: string)
    requires c as int >= SURROGATE_BASE
    ensures ReadEntity(EscapeChar(c) + rest) == Some((c, |EscapeChar(c)|))
  {
    var u := Utf16Units(c);
    var high, low := u[0], u[1];
    EscapeSupplementary(c, high, low);
    AppendAssociative(CharReference(high), CharReference(low), rest);
    ReadSurrogateReferences(high, low, rest);
  }

  lemma ReadNumericReference(c: char, rest: string)
    requires c > '\U{7F}'
    ensures ReadEntity(EscapeChar(c) + rest) == Some((c, |EscapeChar(c)|))
  {
    if c as int < SURROGATE_BASE {
      var d := NatToString(c as int);
      assert EscapeChar(c) + rest == "&#" + (d + ";" + rest);
      ReadEntityOfReference(d + ";" + rest);
      ReadDecimalReference(c, rest);
    } else {
      ReadSurrogatePair(c, rest);
    }
  }

  lemma ReadEscapedChar(c: char, rest: string)
    ensures EscapeChar(c) != [c] ==> ReadEntity(EscapeChar(c) + rest) == Some((c, |EscapeChar(c)|))
  {
    if c in {'&', '<', '>', '"', '\''} {
      ReadNamedEntity(c, rest);
    } else if c > '\U{7F}' {
      ReadNumericReference(c, rest);
    }
  }

  lemma UnescapeChar(c: char, rest: string)
    ensures Unescape(EscapeChar(c) + rest) == [c] + Unescape(rest)
  {
    var s := EscapeChar(c) + rest;
    ReadEscapedChar(c, rest);
    if EscapeChar(c) == [c] {
      assert s[0] == c != '&';
      assert s[1..] == rest;
    } else {
      assert s[|EscapeChar(c)|..] == rest;
    }
  }

  /** Escaping loses nothing: the text can always be read back. */
  lemma {:induction false} EscapeRoundTrip(s: string)
    ensures Unescape(Escape(s)) == s
  {
    if s != [] {
      UnescapeChar(s[0], Escape(s[1..]));
      EscapeRoundTrip(s[1..]);
    }
  }

  /** Escaped text never contains markup characters, so it cannot open or close an element. */
  lemma {:induction false} EscapeHasNoMarkup(s: string)
    ensures forall i :: 0 <= i < |Escape(s)| ==> Escape(s)[i] != '<' && Escape(s)[i] != '>'
  {
    if s != [] {
      EscapeHasNoMarkup(s[1..]);
      var e := EscapeChar(s[0]);
      assert forall i :: 0 <= i < |e| ==> e[i] != '<' && e[i] != '>';
    }
  }

  /** `getXMLElementString(tagname, text)`. */
  function ElementString(tagname: string, text: string): string
  {
    "<" + tagname + ">" + Escape(text) + "</" + tagname + ">"
  }

  /** The element opens and closes with the unescaped tag, and its content reads back as the text. */
  lemma ElementStringShape(tagname: string, text: string)
    ensures var e := ElementString(tagname, text);
      && StartsWith(e, "<" + tagname + ">")
      && EndsWith(e, "</" + tagname + ">")
      && |e| == |tagname| + 2 + |Escape(text)| + |tagname| + 3
      && Unescape(e[|tagname| + 2..|e| - |tagname| - 3]) == text
  {
    var e := ElementString(tagname, text);
    var open := "<" + tagname + ">";
    var close := "</" + tagname + ">";
    assert e == open + Escape(text) + close;
    assert e[..|open|] == open;
    assert e[|e| - |close|..] == close;
    assert e[|open|..|e| - |close|] == Escape(text);
    EscapeRoundTrip(text);
  }

  /** `getXMLElementStringOptional(tagname, text)`: nothing for a missing or blank text. */
  function ElementStringOptional(tagname: string, text: Option<string>): (r: string)
    ensures r == [] <==> text.None? || Trim(text.value) == []
    ensures r != [] ==> r == ElementString(tagname, text.value)
  {
    if text.Some? && Trim(text.value) != [] then ElementString(tagname, text.value) else ""
  }
}
