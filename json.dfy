/**
 * `JSON.stringify` on an array of strings, as the registration form sends its skills,
 * and a parser for the same text, the inverse that `JSON.parse` provides.
 */
module Json {
  import opened Wrappers

  /** Lower-case hexadecimal digit, as `JSON.stringify` writes them in `\u` escapes. */
  function HexDigit(n: nat): (c: char)
    requires n < 16
    ensures '0' <= c <= '9' || 'a' <= c <= 'f'
  {
    if n < 10 then ('0' as int + n) as char else ('a' as int + n - 10) as char
  }

  function HexValue(c: char): (r: Option<nat>)
    ensures r.Some? ==> r.value < 16
  {
    if '0' <= c <= '9' then Some(c as int - '0' as int)
    else if 'a' <= c <= 'f' then Some(c as int - 'a' as int + 10)
    else if 'A' <= c <= 'F' then Some(c as int - 'A' as int + 10)
    else None
  }

  lemma HexRoundTrip(n: nat)
    requires n < 16
    ensures HexValue(HexDigit(n)) == Some(n)
  {
  }

  /** True for the characters `JSON.stringify` writes as themselves inside a string. */
  predicate IsPlain(c: char) {
    c != '"' && c != '\\' && c as int >= 0x20
  }

  /**
   * The escape `JSON.stringify` writes for one character: the two-character forms for
   * quote, backslash, backspace, form feed, line feed, carriage return and tab, `\u00XX`
   * for the other control characters, and the character itself otherwise.
   */
  function EscapeChar(c: char): (r: string)
    ensures IsPlain(c) <==> r == [c]
    ensures !IsPlain(c) ==> |r| >= 2 && r[0] == '\\'
  {
    if c == '"' then "\\\""
    else if c == '\\' then "\\\\"
    else if c == '\U{0008}' then "\\b"
    else if c == '\U{000C}' then "\\f"
    else if c == '\n' then "\\n"
    else if c == '\r' then "\\r"
    else if c == '\t' then "\\t"
    else if c as int < 0x20 then "\\u00" + [HexDigit(c as int / 16), HexDigit(c as int % 16)]
    else [c]
  }

  function EscapeString(s: string): string {
    if s == [] then [] else EscapeChar(s[0]) + EscapeString(s[1..])
  }

  /** `JSON.stringify` of one string. */
  function Quote(s: string): string {
    "\"" + EscapeString(s) + "\""
  }

  /** The comma-separated quoted elements between the brackets. */
  function Elements(xs: seq<string>): string {
    if xs == [] then ""
    else if |xs| == 1 then Quote(xs[0])
    else Quote(xs[0]) + "," + Elements(xs[1..])
  }

  /** `JSON.stringify` of an array of strings: no white space between the tokens. */
  function StringifyArray(xs: seq<string>): (r: string)
    ensures xs == [] <==> r == "[]"
  {
    "[" + Elements(xs) + "]"
  }

  // ---------------------------------------------------------------- parsing

  /** One escape sequence, read after its backslash. */
  function ParseEscape(s: string): (r: Option<(char, string)>)
    ensures r.Some? ==> |r.value.1| < |s|
  {
    if s == [] then None
    else if s[0] == '"' then Some(('"', s[1..]))
    else if s[0] == '\\' then Some(('\\', s[1..]))
    else if s[0] == '/' then Some(('/', s[1..]))
    else if s[0] == 'b' then Some(('\U{0008}', s[1..]))
    else if s[0] == 'f' then Some(('\U{000C}', s[1..]))
    else if s[0] == 'n' then Some(('\n', s[1..]))
    else if s[0] == 'r' then Some(('\r', s[1..]))
    else if s[0] == 't' then Some(('\t', s[1..]))
    else if s[0] == 'u' && |s| >= 5 then
      match (HexValue(s[1]), HexValue(s[2]), HexValue(s[3]), HexValue(s[4]))
      case (Some(a), Some(b), Some(c), Some(d)) =>
        var v := ((a * 16 + b) * 16 + c) * 16 + d;
        if 0xD800 <= v <= 0xDFFF then None else Some((v as char, s[5..]))
      case _ => None
    else None
  }

  /** The characters of a string literal up to its closing quote, and the text after that quote. */
  function ParseStringBody(s: string): (r: Option<(string, string)>)
    ensures r.Some? ==> |r.value.1| < |s|
    decreases |s|
  {
    if s == [] then None
    else if s[0] == '"' then Some(([], s[1..]))
    else if s[0] == '\\' then
      match ParseEscape(s[1..])
      case None => None
      case Some((c, rest)) =>
        match ParseStringBody(rest)
        case None => None
        case Some((cs, tail)) => Some(([c] + cs, tail))
    else if s[0] as int < 0x20 then None
    else
      match ParseStringBody(s[1..])
      case None => None
      case Some((cs, tail)) => Some(([s[0]] + cs, tail))
  }

  /** One or more string literals separated by commas, then the closing bracket and nothing after it. */
  function ParseElements(s: string): (r: Option<seq<string>>)
    ensures r.Some? ==> r.value != []
    decreases |s|
  {
    if s == [] || s[0] != '"' then None
    else
      match ParseStringBody(s[1..])
      case None => None
      case Some((x, rest)) =>
        if rest == "]" then Some([x])
        else if rest != [] && rest[0] == ',' then
          match ParseElements(rest[1..])
          case None => None
          case Some(xs) => Some([x] + xs)
        else None
  }

  /** An array of strings in the compact form `JSON.stringify` writes. */
  function ParseArray(s: string): Option<seq<string>> {
    if s == "[]" then Some([])
    else if s != [] && s[0] == '[' then ParseElements(s[1..])
    else None
  }

  // ---------------------------------------------------------------- round trip

  lemma EscapeCharRoundTrip(c: char, t: string)
    requires !IsPlain(c)
    ensures ParseEscape(EscapeChar(c)[1..] + t) == Some((c, t))
  {
    var e := EscapeChar(c)[1..] + t;
    if c as int < 0x20 && c != '\U{0008}' && c != '\U{000C}' && c != '\n' && c != '\r' && c != '\t' {
      var hi, lo := c as int / 16, c as int % 16;
      HexRoundTrip(0);
      HexRoundTrip(hi);
      HexRoundTrip(lo);
      assert e[0] == 'u' && e[1] == '0' && e[2] == '0' && e[3] == HexDigit(hi) && e[4] == HexDigit(lo);
      assert e[5..] == t;
    }
  }

  /** A plain character is read as itself. */
  lemma ParsePlainStep(c: char, rest: string, x: string, t: string)
    requires IsPlain(c) && ParseStringBody(rest) == Some((x, t))
    ensures ParseStringBody([c] + rest) == Some(([c] + x, t))
  {
    assert ([c] + rest)[1..] == rest;
  }

  /** An escaped character is read back through its escape sequence. */
  lemma ParseEscapedStep(c: char, rest: string, x: string, t: string)
    requires !IsPlain(c) && ParseStringBody(rest) == Some((x, t))
    ensures ParseStringBody(EscapeChar(c) + rest) == Some(([c] + x, t))
  {
    var s := EscapeChar(c) + rest;
    assert s[0] == '\\';
    assert s[1..] == EscapeChar(c)[1..] + rest;
    EscapeCharRoundTrip(c, rest);
  }

  lemma {:induction false} StringBodyRoundTrip(x: string, t: string)
    ensures ParseStringBody(EscapeString(x) + "\"" + t) == Some((x, t))
  {
    if x == [] {
      assert EscapeString(x) + "\"" + t == "\"" + t;
    } else {
      var rest := EscapeString(x[1..]) + "\"" + t;
      assert EscapeString(x) + "\"" + t == EscapeChar(x[0]) + rest;
      StringBodyRoundTrip(x[1..], t);
      if IsPlain(x[0]) {
        ParsePlainStep(x[0], rest, x[1..], t);
      } else {
        ParseEscapedStep(x[0], rest, x[1..], t);
      }
      assert [x[0]] + x[1..] == x;
    }
  }

  /** A quoted string followed by `tail` is read as that string, then `tail`. */
  lemma ParseQuoted(x: string, tail: string)
    ensures ParseStringBody((Quote(x) + tail)[1..]) == Some((x, tail))
  {
    assert (Quote(x) + tail)[1..] == EscapeString(x) + "\"" + tail;
    StringBodyRoundTrip(x, tail);
  }

  /** The last element is read, then the closing bracket. */
  lemma ParseLastElement(x: string)
    ensures ParseElements(Quote(x) + "]") == Some([x])
  {
    var s := Quote(x) + "]";
    assert s[0] == '"';
    ParseQuoted(x, "]");
  }

  /** An element followed by a comma is read, then the elements after the comma. */
  lemma ParseNextElement(x: string, more: string, xs: seq<string>)
    requires ParseElements(more) == Some(xs)
    ensures ParseElements(Quote(x) + "," + more) == Some([x] + xs)
  {
    var tail := "," + more;
    var s := Quote(x) + tail;
    assert Quote(x) + "," + more == s;
    assert s[0] == '"';
    ParseQuoted(x, tail);
    assert tail != "]" && tail[0] == ',' && tail[1..] == more;
  }

  lemma {:induction false} ElementsRoundTrip(xs: seq<string>)
    requires xs != []
    ensures ParseElements(Elements(xs) + "]") == Some(xs)
  {
    if |xs| == 1 {
      ParseLastElement(xs[0]);
      assert Elements(xs) == Quote(xs[0]) && [xs[0]] == xs;
    } else {
      ElementsRoundTrip(xs[1..]);
      assert Elements(xs) + "]" == Quote(xs[0]) + "," + (Elements(xs[1..]) + "]");
      ParseNextElement(xs[0], Elements(xs[1..]) + "]", xs[1..]);
      assert [xs[0]] + xs[1..] == xs;
    }
  }

  /** Parsing what `JSON.stringify` wrote for a string array gives the array back. */
  lemma StringifyRoundTrip(xs: seq<string>)
    ensures ParseArray(StringifyArray(xs)) == Some(xs)
  {
    if xs != [] {
      ElementsRoundTrip(xs);
      assert StringifyArray(xs)[1..] == Elements(xs) + "]";
    }
  }

  /** Distinct arrays are written as distinct texts. */
  lemma StringifyInjective(xs: seq<string>, ys: seq<string>)
    requires StringifyArray(xs) == StringifyArray(ys)
    ensures xs == ys
  {
    StringifyRoundTrip(xs);
    StringifyRoundTrip(ys);
  }
}
