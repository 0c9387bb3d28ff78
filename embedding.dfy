/**
  How the dumped record travels into the page. The updater puts the text of
  json.dumps between backticks in the page source, so the page's
  JSON.parse receives that text after JavaScript has read it as a template
  literal, which decodes escapes such as \n. This module models json.dumps
  of a string, the JSON string grammar, and template-literal decoding, and
  compares the updater's embedding with one that escapes the text first.
*/
module Embedding {
  import opened Wrappers
  import opened Strings
  import opened UpdateProgress

  // ---------------------------------------------------------------------
  // json.dumps of a string (ensure_ascii, the default)
  // ---------------------------------------------------------------------

  predicate IsHex(c: char) {
    '0' <= c <= '9' || 'a' <= c <= 'f' || 'A' <= c <= 'F'
  }

  function HexDigit(d: nat): (c: char)
    requires d < 16
    ensures IsHex(c)
  {
    if d < 10 then ('0' as int + d) as char else ('a' as int + d - 10) as char
  }

  /** Four lower-case hexadecimal digits, as '{0:04x}' writes them. */
  function Hex4(n: nat): (h: string)
    requires n < 0x10000
    ensures |h| == 4 && forall i :: 0 <= i < 4 ==> IsHex(h[i])
  {
    [HexDigit(n / 0x1000), HexDigit(n / 0x100 % 16), HexDigit(n / 16 % 16), HexDigit(n % 16)]
  }

  /** \uXXXX for a character of the basic plane, a surrogate pair above it. */
  function UnicodeEscape(c: char): string
  {
    var n := c as int;
    if n < 0x10000 then "\\u" + Hex4(n)
    else
      var m := n - 0x10000;
      "\\u" + Hex4(0xD800 + m / 0x400) + "\\u" + Hex4(0xDC00 + m % 0x400)
  }

  /** How json.dumps writes one character of a string: the two-character
      escapes for quote, backslash, line feed, carriage return, tab,
      backspace and form feed; \uXXXX for any other character outside
      space..tilde; the character itself otherwise. */
  function DumpsChar(c: char): string
  {
    if c == '"' then "\\\""
    else if c == '\\' then "\\\\"
    else if c == '\n' then "\\n"
    else if c == '\r' then "\\r"
    else if c == '\t' then "\\t"
    else if c == 8 as char then "\\b"
    else if c == 12 as char then "\\f"
    else if c as int < 0x20 || c as int > 0x7E then UnicodeEscape(c)
    else [c]
  }

  function DumpsBody(s: string): string
  {
    if s == [] then [] else DumpsChar(s[0]) + DumpsBody(s[1..])
  }

  /** json.dumps(s) for a str s. */
  function DumpsString(s: string): string
  {
    "\"" + DumpsBody(s) + "\""
  }

  // ---------------------------------------------------------------------
  // The JSON string grammar (section 7 of RFC 8259)
  // ---------------------------------------------------------------------

  /** t is the rest of a JSON string after its opening quote: characters
      from U+0020 on other than quote and backslash, the escapes \" \\ \/
      \b \f \n \r \t and \uXXXX, then the closing quote as the last character. */
  predicate JsonStringRest(t: string)
    decreases |t|
  {
    if t == [] then false
    else if t[0] == '"' then |t| == 1
    else if t[0] == '\\' then
      |t| >= 2 &&
      if t[1] in "\"\\/bfnrt" then JsonStringRest(t[2..])
      else t[1] == 'u' && |t| >= 6 && IsHex(t[2]) && IsHex(t[3]) && IsHex(t[4]) && IsHex(t[5])
           && JsonStringRest(t[6..])
    else t[0] as int >= 0x20 && JsonStringRest(t[1..])
  }

  /** t is exactly one JSON string token. */
  predicate IsJsonStringToken(t: string)
  {
    |t| >= 1 && t[0] == '"' && JsonStringRest(t[1..])
  }

  /** A \uXXXX escape keeps the rest a valid string. */
  lemma UnicodeEscapeKeepsString(n: nat, tail: string)
    requires n < 0x10000
    requires JsonStringRest(tail)
    ensures JsonStringRest("\\u" + Hex4(n) + tail)
  {
    var t := "\\u" + Hex4(n) + tail;
    assert t[6..] == tail;
  }

  /** The escapes json.dumps writes for characters it does not print as
      themselves keep the rest a valid string. */
  lemma EscapedCharKeepsString(c: char, tail: string)
    requires c as int < 0x20 || c as int > 0x7E
    requires JsonStringRest(tail)
    ensures JsonStringRest(UnicodeEscape(c) + tail)
  {
    var n := c as int;
    if n < 0x10000 {
      UnicodeEscapeKeepsString(n, tail);
    } else {
      var m := n - 0x10000;
      assert 0 <= m < 0x100000;
      var hi, lo := 0xD800 + m / 0x400, 0xDC00 + m % 0x400;
      assert hi < 0x10000 && lo < 0x10000;
      assert UnicodeEscape(c) == "\\u" + Hex4(hi) + "\\u" + Hex4(lo);
      var rest := "\\u" + Hex4(lo) + tail;
      UnicodeEscapeKeepsString(lo, tail);
      UnicodeEscapeKeepsString(hi, rest);
      assert UnicodeEscape(c) + tail == "\\u" + Hex4(hi) + rest;
    }
  }

  /** One character written by json.dumps keeps the rest a valid string. */
  lemma DumpsCharKeepsString(c: char, tail: string)
    requires JsonStringRest(tail)
    ensures JsonStringRest(DumpsChar(c) + tail)
  {
    var t := DumpsChar(c) + tail;
    if c == '"' || c == '\\' || c == '\n' || c == '\r' || c == '\t' || c == 8 as char || c == 12 as char {
      assert t[2..] == tail;
    } else if c as int < 0x20 || c as int > 0x7E {
      EscapedCharKeepsString(c, tail);
    } else {
      assert t[1..] == tail;
    }
  }

  lemma {:induction false} DumpsBodyIsString(s: string)
    ensures JsonStringRest(DumpsBody(s) + "\"")
  {
    if s != [] {
      DumpsBodyIsString(s[1..]);
      DumpsCharKeepsString(s[0], DumpsBody(s[1..]) + "\"");
      assert DumpsBody(s) + "\"" == DumpsChar(s[0]) + (DumpsBody(s[1..]) + "\"");
    }
  }

  /** json.dumps of any string is one JSON string token. */
  lemma DumpsStringIsToken(s: string)
    ensures IsJsonStringToken(DumpsString(s))
  {
    DumpsBodyIsString(s);
    assert DumpsString(s)[1..] == DumpsBody(s) + "\"";
  }

  // ---------------------------------------------------------------------
  // Template literals
  // ---------------------------------------------------------------------

  /** The character an escape \e stands for in a template literal, for the
      escapes this model decodes: \n \t \r \b \f \v and every character that
      is not an escape letter, which stands for itself (\\ \` \$ \" \').
      Digit, \x and \u escapes and line continuations are not decoded here. */
  function CookEscape(e: char): Option<char>
  {
    if e == 'n' then Some('\n')
    else if e == 't' then Some('\t')
    else if e == 'r' then Some('\r')
    else if e == 'b' then Some(8 as char)
    else if e == 'f' then Some(12 as char)
    else if e == 'v' then Some(11 as char)
    else if '0' <= e <= '9' || e == 'x' || e == 'u' || e == '\n' || e == '\r'
         || e == 0x2028 as char || e == 0x2029 as char then None
    else Some(e)
  }

  function Prepend(c: char, r: Option<string>): Option<string>
  {
    if r.None? then None else Some([c] + r.value)
  }

  /** The string value of a template literal whose text between the
      backticks is t. None when the text would end the literal early (a
      backtick), start a substitution ("${"), or hold an escape CookEscape
      does not decode. A raw carriage return, alone or before a line feed,
      reads as a line feed. */
  function Cook(t: string): Option<string>
    decreases |t|
  {
    if t == [] then Some([])
    else if t[0] == '`' then None
    else if t[0] == '$' && |t| >= 2 && t[1] == '{' then None
    else if t[0] == '\\' then
      if |t| < 2 then None
      else
        var e := CookEscape(t[1]);
        if e.None? then None else Prepend(e.value, Cook(t[2..]))
    else if t[0] == '\r' then
      if |t| >= 2 && t[1] == '\n' then Prepend('\n', Cook(t[2..])) else Prepend('\n', Cook(t[1..]))
    else Prepend(t[0], Cook(t[1..]))
  }

  /** A character that is not special in a template literal stands for itself. */
  lemma CookPlainStep(c: char, rest: string)
    requires c != '`' && c != '\\' && c != '\r' && c != '$'
    ensures Cook([c] + rest) == Prepend(c, Cook(rest))
  {
    assert ([c] + rest)[1..] == rest;
  }

  /** An escape the model decodes stands for its character. */
  lemma CookEscapeStep(e: char, rest: string)
    requires CookEscape(e).Some?
    ensures Cook(['\\', e] + rest) == Prepend(CookEscape(e).value, Cook(rest))
  {
    assert (['\\', e] + rest)[2..] == rest;
  }

  /** As the updater embeds it, a solution text holding a line break does
      not reach JSON.parse intact: json.dumps writes the break as \n, a
      valid JSON string, and the template literal turns that back into a
      raw line feed, which no JSON string may hold. */
  lemma LineBreakBreaksEmbedding()
    ensures DumpsString("a\nb") == "\"a\\nb\""
    ensures IsJsonStringToken(DumpsString("a\nb"))
    ensures Cook(DumpsString("a\nb")) == Some("\"a\nb\"")
    ensures !IsJsonStringToken(Cook(DumpsString("a\nb")).value)
  {
    assert DumpsBody("a\nb") == "a" + DumpsBody("\nb");
    assert DumpsBody("\nb") == "\\n" + DumpsBody("b");
    DumpsStringIsToken("a\nb");
    var s1 := ['"'];
    CookPlainStep('"', []);
    assert Cook(s1).Some? && Cook(s1).value == ['"'];
    var s2 := ['b'] + s1;
    CookPlainStep('b', s1);
    assert Cook(s2).Some? && Cook(s2).value == ['b', '"'];
    var s3 := ['\\', 'n'] + s2;
    CookEscapeStep('n', s2);
    assert Cook(s3).Some? && Cook(s3).value == ['\n', 'b', '"'];
    var s4 := ['a'] + s3;
    CookPlainStep('a', s3);
    assert Cook(s4).Some? && Cook(s4).value == ['a', '\n', 'b', '"'];
    var s5 := ['"'] + s4;
    CookPlainStep('"', s4);
    assert Cook(s5).Some? && Cook(s5).value == ['"', 'a', '\n', 'b', '"'];
    assert s5 == DumpsString("a\nb");
    var cooked := "\"a\nb\"";
    assert cooked[1..][1..] == "\nb\"";
  }

  /** A double quote in a solution text fares no better: \" reads as a bare
      quote, which ends the JSON string early. */
  lemma QuoteBreaksEmbedding()
    ensures DumpsString("\"") == "\"\\\"\""
    ensures IsJsonStringToken(DumpsString("\""))
    ensures Cook(DumpsString("\"")) == Some("\"\"\"")
    ensures !IsJsonStringToken(Cook(DumpsString("\"")).value)
  {
    DumpsStringIsToken("\"");
    var s1 := ['"'];
    CookPlainStep('"', []);
    assert Cook(s1).Some? && Cook(s1).value == ['"'];
    var s2 := ['\\', '"'] + s1;
    CookEscapeStep('"', s1);
    assert Cook(s2).Some? && Cook(s2).value == ['"', '"'];
    var s3 := ['"'] + s2;
    CookPlainStep('"', s2);
    assert Cook(s3).Some? && Cook(s3).value == ['"', '"', '"'];
    assert s3 == DumpsString("\"");
    var cooked := "\"\"\"";
    assert cooked[1..] == "\"\"";
  }

  // ---------------------------------------------------------------------
  // The embedding with escaping
  // ---------------------------------------------------------------------

  /** How one character is written inside a template literal so that it
      reads back as itself: backslash, backtick and dollar sign get a
      backslash, a carriage return is written as \r. */
  function TemplateChar(c: char): string
  {
    if c == '\\' || c == '`' || c == '$' then ['\\', c]
    else if c == '\r' then "\\r"
    else [c]
  }

  /** The text to put between the backticks for a string s. */
  function EscapeForTemplate(s: string): string
  {
    if s == [] then [] else TemplateChar(s[0]) + EscapeForTemplate(s[1..])
  }

  /** Reading the escaped text as a template literal gives back s exactly,
      for every string s. */
  lemma {:induction false} CookEscapeForTemplate(s: string)
    ensures Cook(EscapeForTemplate(s)) == Some(s)
  {
    if s != [] {
      var c := s[0];
      var e := EscapeForTemplate(s[1..]);
      CookEscapeForTemplate(s[1..]);
      assert EscapeForTemplate(s) == TemplateChar(c) + e;
      if c == '\\' || c == '`' || c == '$' {
        CookEscapeStep(c, e);
      } else if c == '\r' {
        CookEscapeStep('r', e);
      } else {
        CookPlainStep(c, e);
      }
      assert s == [c] + s[1..];
    }
  }

  /** update_problem's replacement with the JSON text escaped first. */
  function InjectEscaped(template: string, json: string): string
  {
    ReplaceAll(template, Placeholder, "`" + EscapeForTemplate(json) + "`")
  }

  /** With escaping, a template holding one placeholder gets a literal whose
      value is the dumped JSON text itself, so JSON.parse sees exactly what
      json.dumps wrote. */
  lemma InjectEscapedOnce(before: string, after: string, json: string)
    requires forall i :: 0 <= i < |before| ==> !OccursAt(before + Placeholder + after, Placeholder, i)
    requires !Contains(after, Placeholder)
    ensures InjectEscaped(before + Placeholder + after, json) == before + "`" + EscapeForTemplate(json) + "`" + after
    ensures Cook(EscapeForTemplate(json)) == Some(json)
  {
    ReplaceAllAtFirst(before, after, Placeholder, "`" + EscapeForTemplate(json) + "`");
    ReplaceAllOfFree(after, Placeholder, "`" + EscapeForTemplate(json) + "`");
    CookEscapeForTemplate(json);
  }

  /** The escaped embedding keeps every dumped string a JSON string. */
  lemma EscapedDumpsStaysToken(s: string)
    ensures Cook(EscapeForTemplate(DumpsString(s))) == Some(DumpsString(s))
    ensures IsJsonStringToken(Cook(EscapeForTemplate(DumpsString(s))).value)
  {
    CookEscapeForTemplate(DumpsString(s));
    DumpsStringIsToken(s);
  }
}
